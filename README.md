# jOOQ query-model core in Dafny

This project models six pieces of the jOOQ query object model and its SQL
renderer, and proves properties of them:

- **Window specifications** (module `WindowSpecification`). A mutable builder
  holds the PARTITION BY and ORDER BY lists, the frame units, the frame bounds
  encoded as signed `int`s and the exclusion mode. Its `accept` renders the
  `OVER (…)` clause: which clauses appear, the indentation when two or more do,
  the PARTITION BY 1 that some dialects drop, and the ORDER BY (SELECT 1) that
  some window functions need.
- **`DayToSecond` intervals** (module `DayToSecondInterval`). This is the SQL
  INTERVAL DAY TO SECOND type of section 4.6 of ISO/IEC 9075-2:2003. The model
  covers carry normalisation with Java's truncating `/` and `%`,
  `valueOf(long, int)`, `valueOf(Duration)`, `neg`, `abs`, the getters,
  `compareTo`, `equals`, `hashCode` and `toString`.
- **Row value predicates** (modules `Rows`, `RowImpl3`, `RowImpl7` and
  `RowPredicates`).
  - Each comparison, BETWEEN, DISTINCT and IN method of a row maps its
    arguments to a condition node.
  - `RowPredicates` gives a two-valued semantics of those nodes. It follows
    sections 8.2 and 8.3 of ISO/IEC 9075-2:2003.
  - The Boolean emulations documented in `Row2` are proved equal to that
    semantics.
- **Records** (modules `RecordImpl5` and `RecordCondition`).
  - `RecordImpl5` is a five-slot value buffer whose setters return the record
    itself.
  - `RecordCondition` folds the record's non-null slots into an AND chain.
- **DDL and function nodes** (modules `AlterType`, `Position`, `Upper`,
  `Function`, `ScalarSubquery` and `SelectFieldList`). They cover the mutable
  setters and the priority rendering of ALTER TYPE, the per-dialect POSITION
  rendering and its CASE emulation (evaluated by `SqlEval`), the functional
  withers, and structural equality.
- **Qualified record constants** (module `QualifiedRecordConstant`). A UDT
  record renders as `ROW(v1, …, vn)::T` on Postgres and YugabyteDB. The model
  covers the separator loop, the save and restore of the context's parameter
  type, and the bind-or-throw of `bind0`.

Shared modules:

- `Qom`: the query-part values (dialects, names, data types, fields, selects,
  conditions and output tokens).
- `Rendering`: a `Context` class holding the dialect, whether it renders or
  binds, the parameter type, the emitted tokens and the bound values.
- `JavaInt`: Java `int` and `long` wrap-around, truncating division and
  remainder, and `Math.abs`.
- `Text`: Java's decimal rendering and `leftPad`, together with a parser that
  reads them back.

Rendering is modelled as the sequence of tokens a `Context` receives: SQL
text, keywords and visited query parts. Visiting a query part is one token;
how that part renders itself is not part of this model.

## Model

All source paths are under `jOOQ/src/main/java/org/jooq/`.

| member | source | states |
|---|---|---|
| WindowSpecification.RowsTokens | jOOQ/src/main/java/org/jooq/impl/WindowSpecificationImpl.java:399-410 | one encoded bound renders as one to three tokens, and never as BETWEEN, AND, EXCLUDE, PARTITION BY or ORDER BY |
| WindowSpecification.RowsTokensCases | jOOQ/src/main/java/org/jooq/impl/WindowSpecificationImpl.java:399-410 | five disjoint cases cover every `int`: MIN_VALUE is UNBOUNDED PRECEDING, MAX_VALUE is UNBOUNDED FOLLOWING, r < 0 is "-r PRECEDING", r > 0 is "r FOLLOWING", and 0 is CURRENT ROW |
| WindowSpecification.RenderEncodedBound | jOOQ/src/main/java/org/jooq/impl/WindowSpecificationImpl.java:442-635 | for a count strictly between 0 and MAX_VALUE, a bound stored by a builder call renders back as the bound that was asked for |
| WindowSpecification.SentinelCollisions | jOOQ/src/main/java/org/jooq/impl/WindowSpecificationImpl.java:449-475 | `xFollowing(MAX_VALUE)` renders UNBOUNDED FOLLOWING, `xPreceding(MIN_VALUE)` renders UNBOUNDED PRECEDING, and a negative count passed to `xPreceding` renders as FOLLOWING |
| WindowSpecification.EffectiveOrderBy | jOOQ/src/main/java/org/jooq/impl/WindowSpecificationImpl.java:186-219 | a non-empty order list is kept; an empty one becomes `(SELECT 1)` exactly when the window function needs an ORDER BY on the dialect, and stays empty otherwise |
| WindowSpecification.RequiresOrderByCases | jOOQ/src/main/java/org/jooq/impl/WindowSpecificationImpl.java:129-132 | the pairs needing ORDER BY are exactly Ntile on H2, Lead/Lag on H2 and MariaDB, Rank/DenseRank on H2 and MariaDB, and PercentRank/CumeDist on MariaDB |
| WindowSpecification.BoundsTokens | jOOQ/src/main/java/org/jooq/impl/WindowSpecificationImpl.java:318-327 | BETWEEN and AND appear iff an end bound is set; the bounds contain no indentation, EXCLUDE, PARTITION BY or ORDER BY |
| WindowSpecification.ClausesTokensShape | jOOQ/src/main/java/org/jooq/impl/WindowSpecificationImpl.java:243-335 | the output is the four clause renderings in order, wrapped in indentation iff more than one clause is present |
| WindowSpecification.IndentIffSeveralClauses | jOOQ/src/main/java/org/jooq/impl/WindowSpecificationImpl.java:232-247 | indentation is opened and closed iff at least two of window definition, PARTITION BY, ORDER BY (after injection) and frame are present |
| WindowSpecification.AcceptTokens | jOOQ/src/main/java/org/jooq/impl/WindowSpecificationImpl.java:173-336 | `accept` emits nothing exactly when there is no window name, no rendered PARTITION BY (a dropped PARTITION BY 1 counts as none), no ORDER BY given or needed, and no frame |
| WindowSpecification.FrameRendering | jOOQ/src/main/java/org/jooq/impl/WindowSpecificationImpl.java:276-331 | a frame is rendered iff `frameStart` is set, so `frameEnd` alone is ignored; BETWEEN … AND appears iff `frameEnd` is set too; EXCLUDE appears iff a frame and an exclusion are set |
| WindowSpecification.FrameShape | jOOQ/src/main/java/org/jooq/impl/WindowSpecificationImpl.java:276-331 | the frame clause is a separator (iff an earlier clause is present), the units keyword, then the bounds, then the exclusion |
| WindowSpecification.ExcludeComesLast | jOOQ/src/main/java/org/jooq/impl/WindowSpecificationImpl.java:329-335 | the EXCLUDE keyword and its mode are the last output before the closing indentation |
| WindowSpecification.PartitionByRendering | jOOQ/src/main/java/org/jooq/impl/WindowSpecificationImpl.java:252-266 | PARTITION BY is rendered iff the list is non-empty and it is not a `partitionByOne()` list on CUBRID, MySQL or SQLite |
| WindowSpecification.OmittedPartitionKeepsSeparator | jOOQ/src/main/java/org/jooq/impl/WindowSpecificationImpl.java:252-274 | when a `partitionByOne()` list is dropped, the following ORDER BY still starts with a separator |
| WindowSpecification.OrderByRendering | jOOQ/src/main/java/org/jooq/impl/WindowSpecificationImpl.java:183-274 | ORDER BY is rendered iff the order list is non-empty or the window function needs one on the dialect |
| WindowSpecification.WindowSpecificationImpl.constructor | jOOQ/src/main/java/org/jooq/impl/WindowSpecificationImpl.java:150-158 | a new specification has the given window definition, empty lists and no frame, exclusion or flag |
| WindowSpecification.WindowSpecificationImpl.Copy | jOOQ/src/main/java/org/jooq/impl/WindowSpecificationImpl.java:160-170 | the copy is a fresh object with the same window definition, lists, units, bounds, exclusion and flag |
| WindowSpecification.CopyIsIndependent | jOOQ/src/main/java/org/jooq/impl/WindowSpecificationImpl.java:160-170 | changing every slot of the copy (PARTITION BY, ORDER BY, a BETWEEN frame and an exclusion) gives the copy exactly those values and leaves the original unchanged |
| WindowSpecification.WindowSpecificationImpl.PartitionBy | jOOQ/src/main/java/org/jooq/impl/WindowSpecificationImpl.java:413-421 | appends the fields to the PARTITION BY list, changes nothing else, and returns this |
| WindowSpecification.WindowSpecificationImpl.PartitionByOne | jOOQ/src/main/java/org/jooq/impl/WindowSpecificationImpl.java:425-429 | sets the flag, appends the constant 1, changes nothing else, and returns this |
| WindowSpecification.WindowSpecificationImpl.OrderBy | jOOQ/src/main/java/org/jooq/impl/WindowSpecificationImpl.java:432-440 | appends to the ORDER BY list, changes nothing else, and returns this |
| WindowSpecification.WindowSpecificationImpl.Frame | jOOQ/src/main/java/org/jooq/impl/WindowSpecificationImpl.java:442-635 | the start-bound setters set only the frame units and the encoded start bound (-n, n, 0, MIN_VALUE or MAX_VALUE) |
| WindowSpecification.WindowSpecificationImpl.FrameBetween | jOOQ/src/main/java/org/jooq/impl/WindowSpecificationImpl.java:477-635 | the `*Between*` setters change exactly what the plain start-bound setters change |
| WindowSpecification.WindowSpecificationImpl.And | jOOQ/src/main/java/org/jooq/impl/WindowSpecificationImpl.java:637-665 | the `and*` setters change only the encoded end bound |
| WindowSpecification.WindowSpecificationImpl.Exclude | jOOQ/src/main/java/org/jooq/impl/WindowSpecificationImpl.java:667-689 | the `exclude*` setters change only the exclusion |
| WindowSpecification.WindowSpecificationImpl.Accept | jOOQ/src/main/java/org/jooq/impl/WindowSpecificationImpl.java:173-336 | emits exactly the reference rendering of the current state on the context's dialect, and leaves parameter type and binds unchanged |
| WindowSpecification.WindowSpecificationImpl.RenderedOrderBy | jOOQ/src/main/java/org/jooq/impl/WindowSpecificationImpl.java:186-219 | the order list `accept` renders is the explicit one, or `(SELECT 1)` exactly when it is empty and required |
| WindowSpecification.WindowSpecificationImpl.CountClauses | jOOQ/src/main/java/org/jooq/impl/WindowSpecificationImpl.java:221-241 | the clause counter is at most 4, is 0 iff no clause is present, and counts the present clauses |
| WindowSpecification.WindowSpecificationImpl.AcceptPartitionBy | jOOQ/src/main/java/org/jooq/impl/WindowSpecificationImpl.java:252-266 | the PARTITION BY step of `accept` emits the reference PARTITION BY rendering |
| WindowSpecification.WindowSpecificationImpl.AcceptOrderBy | jOOQ/src/main/java/org/jooq/impl/WindowSpecificationImpl.java:268-274 | the ORDER BY step of `accept` emits the reference ORDER BY rendering |
| WindowSpecification.WindowSpecificationImpl.AcceptFrame | jOOQ/src/main/java/org/jooq/impl/WindowSpecificationImpl.java:276-331 | the frame step of `accept` emits the reference frame rendering |
| WindowSpecification.AcceptBounds | jOOQ/src/main/java/org/jooq/impl/WindowSpecificationImpl.java:318-327 | the bounds step emits one bound, or BETWEEN, a bound, AND and a bound |
| WindowSpecification.ToSQLRows | jOOQ/src/main/java/org/jooq/impl/WindowSpecificationImpl.java:399-410 | `toSQLRows` emits exactly the reference rendering of the bound |
| DayToSecondInterval.Carry | jOOQ/src/main/java/org/jooq/types/DayToSecond.java:144-159 | one carry step leaves the low component below its unit, changes nothing when its guard fails, and keeps `high * unit + low` when the sum does not overflow |
| DayToSecondInterval.CarryAgrees | jOOQ/src/main/java/org/jooq/types/DayToSecond.java:144-159 | the `Math.abs` guard and the true absolute value agree except at MIN_VALUE |
| DayToSecondInterval.CarryNoOverflow | jOOQ/src/main/java/org/jooq/types/DayToSecond.java:144-159 | a carry without overflow keeps the length and grows `high` by at most `Abs(low) / unit` |
| DayToSecondInterval.Make | jOOQ/src/main/java/org/jooq/types/DayToSecond.java:140-167 | the corrected constructor (second finding): keeps the sign, leaves every component below its unit (Abs(nano) < 1e9, Abs(s) < 60, Abs(m) < 60, Abs(h) < 24), and leaves normalised arguments alone |
| DayToSecondInterval.MakeAsWritten | jOOQ/src/main/java/org/jooq/types/DayToSecond.java:140-167 | the constructor as written keeps the sign, leaves every component below its unit or at `Integer.MIN_VALUE`, and leaves such arguments unchanged |
| DayToSecondInterval.Of | jOOQ/src/main/java/org/jooq/types/DayToSecond.java:101-138 | the public constructors are the constructor as written with a positive sign: the result is positive, every component is below its unit or at `Integer.MIN_VALUE`, and such arguments come back unchanged |
| DayToSecondInterval.MakePreservesTotal | jOOQ/src/main/java/org/jooq/types/DayToSecond.java:144-159 | the intended normalisation keeps days·86400e9 + hours·3600e9 + minutes·60e9 + seconds·1e9 + nano whenever no carry overflows an `int` |
| DayToSecondInterval.MakeAsWrittenAgrees | jOOQ/src/main/java/org/jooq/types/DayToSecond.java:140-167 | for any day count and hours, minutes and seconds below 2^30 with nano ≠ `Integer.MIN_VALUE`, the constructor as written equals the intended one, so its result is normalised |
| DayToSecondInterval.MinValueNanoNotNormalized | jOOQ/src/main/java/org/jooq/types/DayToSecond.java:144-147 | `nano = Integer.MIN_VALUE` is left uncarried by the code as written, by the public constructor and by `valueOf(0, Integer.MIN_VALUE)`, so the result is not normalised; the intended constructor carries it |
| DayToSecondInterval.OfSmall | jOOQ/src/main/java/org/jooq/types/DayToSecond.java:101-138 | for days below 2^30 in magnitude, hours, minutes and seconds below 2^30 and nano ≠ `Integer.MIN_VALUE`, the public constructor gives a normalised interval whose signed length is the linear total of its arguments |
| DayToSecondInterval.SmallNoCarryOverflow | jOOQ/src/main/java/org/jooq/types/DayToSecond.java:144-159 | arguments below 2^30 in magnitude never make a carry overflow an `int` |
| DayToSecondInterval.SplitNoCarryOverflow | jOOQ/src/main/java/org/jooq/types/DayToSecond.java:418-425 | a day count below `Integer.MAX_VALUE` with hours, minutes and seconds below their units never makes a carry overflow, whatever the nanoseconds |
| DayToSecondInterval.Neg | jOOQ/src/main/java/org/jooq/types/DayToSecond.java:486-488 | `neg` re-runs the constructor as written with the flipped sign: the sign is flipped, and a settled interval keeps its components |
| DayToSecondInterval.AbsValue | jOOQ/src/main/java/org/jooq/types/DayToSecond.java:491-493 | `abs` re-runs the constructor as written with a positive sign: the sign is cleared, and a settled interval keeps its components |
| DayToSecondInterval.NegInvolution | jOOQ/src/main/java/org/jooq/types/DayToSecond.java:486-488 | for a settled interval, `neg(neg(x)) == x`, and `neg` negates the signed length |
| DayToSecondInterval.AbsOfNeg | jOOQ/src/main/java/org/jooq/types/DayToSecond.java:486-493 | for a settled interval, `abs(neg(x)) == abs(x)`, and the length of `abs(x)` is the unsigned length of x |
| DayToSecondInterval.Sign | jOOQ/src/main/java/org/jooq/types/DayToSecond.java:629-631 | `getSign()` is -1 or 1, and -1 iff the interval is negative |
| DayToSecondInterval.Milli | jOOQ/src/main/java/org/jooq/types/DayToSecond.java:526-528 | `getMilli()` is the nanoseconds truncated toward zero to milliseconds, for negative as well as non-negative nano (`r·1e6 ≤ nano < (r+1)·1e6`, resp. `(r−1)·1e6 < nano ≤ r·1e6`), below 1000 in absolute value on normalised intervals |
| DayToSecondInterval.Micro | jOOQ/src/main/java/org/jooq/types/DayToSecond.java:533-535 | `getMicro()` is the nanoseconds truncated toward zero to microseconds, for negative as well as non-negative nano (`r·1000 ≤ nano < (r+1)·1000`, resp. `(r−1)·1000 < nano ≤ r·1000`), below 1e6 in absolute value on normalised intervals |
| DayToSecondInterval.SplitSecondCount | jOOQ/src/main/java/org/jooq/types/DayToSecond.java:418-423 | the `%`/`/` steps split a count into parts below 60, 60 and 24 whose weighted sum is the count, and into non-negative parts for a non-negative count |
| DayToSecondInterval.PositivePart | jOOQ/src/main/java/org/jooq/types/DayToSecond.java:418-425 | the interval built from `Math.abs(second)` is positive and settled, and for nanos below 1e9 in magnitude it is exactly the split into days, hours, minutes and seconds with `nanos` |
| DayToSecondInterval.ValueOfSeconds | jOOQ/src/main/java/org/jooq/types/DayToSecond.java:417-431 | `valueOf(second, nanos)` is negative iff `second < 0`, and every component is below its unit or at `Integer.MIN_VALUE` |
| DayToSecondInterval.ValueOfSecondsNormalized | jOOQ/src/main/java/org/jooq/types/DayToSecond.java:417-431 | `valueOf(second, nanos)` is normalised for every `second` and every `nanos` except `Integer.MIN_VALUE` |
| DayToSecondInterval.ValueOfSecondsParts | jOOQ/src/main/java/org/jooq/types/DayToSecond.java:417-431 | for nanos the constructor does not carry and a day count that fits an `int`, the components are 0 ≤ s < 60, 0 ≤ m < 60, 0 ≤ h < 24 with d·86400 + h·3600 + m·60 + s = `Abs(second)`, and nano = `nanos` |
| DayToSecondInterval.ValueOfSecondsTotal | jOOQ/src/main/java/org/jooq/types/DayToSecond.java:417-431 | for any `nanos` and a day count below `Integer.MAX_VALUE`, the signed length of `valueOf(second, nanos)` is `second` seconds plus `nanos` (minus `nanos` when negative) |
| DayToSecondInterval.SplitPartsTotal | jOOQ/src/main/java/org/jooq/types/DayToSecond.java:418-425 | the constructor as written keeps the linear total of below-unit hours, minutes and seconds, a day count below `Integer.MAX_VALUE` and any nanoseconds |
| DayToSecondInterval.PositivePartTotal | jOOQ/src/main/java/org/jooq/types/DayToSecond.java:418-425 | the positive part of `valueOf(second, nanos)` is `Math.abs(second)` seconds plus `nanos` long |
| DayToSecondInterval.Borrowed | jOOQ/src/main/java/org/jooq/types/DayToSecond.java:441-447 | a negative duration borrows one second, `(s + 1, 1e9 - n)`, and the pair still spells the duration's length |
| DayToSecondInterval.ValueOfDurationAsWritten | jOOQ/src/main/java/org/jooq/types/DayToSecond.java:437-450 | a null duration gives null, and any other gives an interval |
| DayToSecondInterval.ValueOfDurationIsBorrowed | jOOQ/src/main/java/org/jooq/types/DayToSecond.java:437-450 | `valueOf(Duration)` as written delegates to `valueOf(s + 1, 1e9 - n)` for s < 0 and to `valueOf(s, n)` otherwise |
| DayToSecondInterval.ValueOfDuration | jOOQ/src/main/java/org/jooq/types/DayToSecond.java:437-450 | a null duration gives null; any other gives an interval that is negative iff the duration is |
| DayToSecondInterval.ValueOfDurationBorrowedSign | jOOQ/src/main/java/org/jooq/types/DayToSecond.java:437-450 | the intended conversion differs from the code as written only at s = -1, where it negates the result |
| DayToSecondInterval.ValueOfDurationTotal | jOOQ/src/main/java/org/jooq/types/DayToSecond.java:437-450 | for a day count below `Integer.MAX_VALUE`, the intended conversion keeps the duration's signed length in nanoseconds |
| DayToSecondInterval.ValueOfDurationAsWrittenAgrees | jOOQ/src/main/java/org/jooq/types/DayToSecond.java:437-450 | the code as written agrees with the intended conversion whenever s ≠ -1 |
| DayToSecondInterval.ValueOfDurationAsWrittenLosesSign | jOOQ/src/main/java/org/jooq/types/DayToSecond.java:441-445 | for a duration between -1 s and 0, the code as written returns the positive interval of the same length |
| DayToSecondInterval.CompareTo | jOOQ/src/main/java/org/jooq/types/DayToSecond.java:638-657 | `compareTo` is -1, 0 or 1, and 0 iff all five components are equal |
| DayToSecondInterval.CompareToIsLexicographic | jOOQ/src/main/java/org/jooq/types/DayToSecond.java:638-657 | `compareTo` is the lexicographic order on (days, hours, minutes, seconds, nano), defined independently |
| DayToSecondInterval.CompareToProperties | jOOQ/src/main/java/org/jooq/types/DayToSecond.java:638-657 | `compareTo` is reflexive-zero, antisymmetric and transitive, and on a settled interval it ignores the sign |
| DayToSecondInterval.ZeroIffAllZero | jOOQ/src/main/java/org/jooq/types/DayToSecond.java:677-702 | a normalised interval has length 0 iff every component is 0, which is what `equals`' zero test needs |
| DayToSecondInterval.Equals | jOOQ/src/main/java/org/jooq/types/DayToSecond.java:677-702 | equal intervals have equal hash codes |
| DayToSecondInterval.EqualsIsEquivalence | jOOQ/src/main/java/org/jooq/types/DayToSecond.java:677-702 | `equals` is reflexive, symmetric and transitive |
| DayToSecondInterval.EqualsNeg | jOOQ/src/main/java/org/jooq/types/DayToSecond.java:677-702 | an interval equals its negation iff it is zero, and equal intervals compare as 0 |
| DayToSecondInterval.HashCode | jOOQ/src/main/java/org/jooq/types/DayToSecond.java:660-674 | the zero interval hashes to 0 |
| DayToSecondInterval.HashCodeIgnoresSign | jOOQ/src/main/java/org/jooq/types/DayToSecond.java:660-702 | the hash code ignores the sign flag |
| DayToSecondInterval.ToString | jOOQ/src/main/java/org/jooq/types/DayToSecond.java:705-729 | the text starts with "-" iff the interval is negative, else with "+" |
| DayToSecondInterval.TwoDigitsParse | jOOQ/src/main/java/org/jooq/types/DayToSecond.java:712-724 | a component below 60 renders as two digits that read back as the component |
| DayToSecondInterval.NanoParse | jOOQ/src/main/java/org/jooq/types/DayToSecond.java:725-726 | the nanoseconds left-padded with zeros to 9 are nine digits that read back as the nanoseconds |
| DayToSecondInterval.ToStringLayout | jOOQ/src/main/java/org/jooq/types/DayToSecond.java:705-729 | the text is the sign, the days and a 19-character tail |
| DayToSecondInterval.TailLayout | jOOQ/src/main/java/org/jooq/types/DayToSecond.java:710-729 | the tail is a space, HH:MM:SS, a dot and nine nanosecond digits, and each component reads back from its position |
| DayToSecondInterval.ToStringInjective | jOOQ/src/main/java/org/jooq/types/DayToSecond.java:705-729 | distinct non-negative normalised intervals render distinctly |
| RowPredicates.LexTrichotomy | jOOQ/src/main/java/org/jooq/Row2.java:607-610 | the lexicographic row order is a strict total order |
| RowPredicates.CompareRowsDegreeOne | jOOQ/src/main/java/org/jooq/Row2.java:265-268 | on degree-one rows, a row comparison is the scalar comparison |
| RowPredicates.EqualEmulation | jOOQ/src/main/java/org/jooq/Row2.java:265-268 | the `=` emulation uses scalar comparisons and connectives only |
| RowPredicates.NotEqualEmulation | jOOQ/src/main/java/org/jooq/Row2.java:392-396 | the `<>` emulation uses scalar comparisons and connectives only |
| RowPredicates.StrictEmulation | jOOQ/src/main/java/org/jooq/Row2.java:607-610 | the `<` and `>` emulations use scalar comparisons and connectives only |
| RowPredicates.OrEqualEmulation | jOOQ/src/main/java/org/jooq/Row2.java:733-737 | the `<=` and `>=` emulations use scalar comparisons and connectives only |
| RowPredicates.BetweenEmulation | jOOQ/src/main/java/org/jooq/Row2.java:1158-1163 | the BETWEEN emulation uses scalar comparisons and connectives only |
| RowPredicates.BetweenSymmetricEmulation | jOOQ/src/main/java/org/jooq/Row2.java:1226-1231 | the BETWEEN SYMMETRIC emulation uses scalar comparisons and connectives only |
| RowPredicates.NotBetweenEmulation | jOOQ/src/main/java/org/jooq/Row2.java:1296-1299 | the NOT BETWEEN emulation uses scalar comparisons and connectives only |
| RowPredicates.NotBetweenSymmetricEmulation | jOOQ/src/main/java/org/jooq/Row2.java:1364-1367 | the NOT BETWEEN SYMMETRIC emulation uses scalar comparisons and connectives only |
| RowPredicates.InEmulation | jOOQ/src/main/java/org/jooq/Row2.java:1400-1403 | the IN emulation uses scalar comparisons and connectives only |
| RowPredicates.NotInEmulation | jOOQ/src/main/java/org/jooq/Row2.java:1511-1515 | the NOT IN emulation uses scalar comparisons and connectives only |
| RowPredicates.OverlapsEmulation | jOOQ/src/main/java/org/jooq/Row2.java:1634-1641 | the OVERLAPS emulation uses scalar comparisons and connectives only |
| RowPredicates.EqualEmulationUnfold | jOOQ/src/main/java/org/jooq/Row2.java:265-268 | one more component adds one more conjunct to the `=` emulation |
| RowPredicates.EqualEmulationEval | jOOQ/src/main/java/org/jooq/Row2.java:265-396 | row `=` is the AND of the component equalities, and row `<>` is the NOT of that AND |
| RowPredicates.StrictStep | jOOQ/src/main/java/org/jooq/Row2.java:607-610 | a strict row comparison of degree n+1 is expressed through the first n components and the last one |
| RowPredicates.StrictEmulationUnfold | jOOQ/src/main/java/org/jooq/Row2.java:607-610 | one more component adds one more disjunct to the strict emulation |
| RowPredicates.StrictEmulationEval | jOOQ/src/main/java/org/jooq/Row2.java:607-864 | row `<` is `A<X OR (A=X AND B<Y) OR …`, and row `>` is its mirror image |
| RowPredicates.OrEqualEmulationEval | jOOQ/src/main/java/org/jooq/Row2.java:733-991 | row `<=` is the `<` expansion OR all components equal, and row `>=` is its mirror image |
| RowPredicates.BetweenEmulationEval | jOOQ/src/main/java/org/jooq/Row2.java:1158-1163 | `A BETWEEN B AND C` is `A >= B AND A <= C` as row comparisons |
| RowPredicates.BetweenSymmetricEmulationEval | jOOQ/src/main/java/org/jooq/Row2.java:1226-1231 | BETWEEN SYMMETRIC is `(A>=B AND A<=C) OR (A>=C AND A<=B)`, and it does not depend on the order of B and C |
| RowPredicates.OutOfRange | jOOQ/src/main/java/org/jooq/Row2.java:1296-1299 | a row lies outside [B, C] iff it is below B or above C |
| RowPredicates.NotBetweenEmulationEval | jOOQ/src/main/java/org/jooq/Row2.java:1296-1299 | NOT BETWEEN is `A<B OR A>C`, the negation of BETWEEN |
| RowPredicates.NotBetweenSymmetricEmulationEval | jOOQ/src/main/java/org/jooq/Row2.java:1364-1367 | NOT BETWEEN SYMMETRIC is `(A<B OR A>C) AND (A<C OR A>B)`, the negation of BETWEEN SYMMETRIC |
| RowPredicates.FoundCons | jOOQ/src/main/java/org/jooq/Row2.java:1400-1403 | some candidate matches iff the first one does or some later one does |
| RowPredicates.EvalIn | jOOQ/src/main/java/org/jooq/Row2.java:1400-1515 | row IN holds iff some candidate has the row's values, and NOT IN iff none has |
| RowPredicates.InEmulationUnfold | jOOQ/src/main/java/org/jooq/Row2.java:1400-1403 | one more candidate adds one more disjunct to the IN emulation |
| RowPredicates.InEmulationEval | jOOQ/src/main/java/org/jooq/Row2.java:1400-1515 | row IN is the OR of the row equalities with each candidate, and NOT IN is the NOT of that OR |
| RowPredicates.OverlapsEmulationEval | jOOQ/src/main/java/org/jooq/Row2.java:1634-1641 | for ordered bounds, `(C <= B) AND (A <= D)` holds iff [A, B] and [C, D] share a point |
| Rows.ValuesRow | jOOQ/src/main/java/org/jooq/impl/RecordImpl5.java:72-75 | `valuesRow()` has the record's degree |
| Rows.OperandRow | jOOQ/src/main/java/org/jooq/impl/RowImpl3.java:120-133 | a record, value or field operand stands for a row of the same degree |
| Rows.Compare | jOOQ/src/main/java/org/jooq/impl/RowImpl3.java:115-143 | `compare(c, row)` builds `RowCondition(this, row, c)`, the record form uses `valuesRow()`, and the subquery forms build `RowSubqueryCondition` |
| Rows.Delegate | jOOQ/src/main/java/org/jooq/impl/RowImpl3.java:169-389 | every short alias delegates to a long-named method |
| Rows.Invoke | jOOQ/src/main/java/org/jooq/impl/RowImpl3.java:149-391 | every equality and ordering method and alias builds a node on this row carrying the comparator its name means, for every argument form |
| Rows.InSelect | jOOQ/src/main/java/org/jooq/impl/RowImpl3.java:750-753 | `in(select)` uses the IN comparator |
| Rows.NotInSelect | jOOQ/src/main/java/org/jooq/impl/RowImpl3.java:755-758 | `notIn(select)` uses the NOT IN comparator |
| Rows.BetweenStep | jOOQ/src/main/java/org/jooq/impl/RowImpl3.java:397-505 | the one-argument BETWEEN methods set (not, symmetric) to (F,F), (F,T), (T,F) and (T,T) |
| Rows.And | jOOQ/src/main/java/org/jooq/impl/RowImpl3.java:418-426 | `step.and(max)` completes the BETWEEN node with its flags unchanged |
| Rows.BetweenRows | jOOQ/src/main/java/org/jooq/impl/RowImpl3.java:418-426 | each two-argument BETWEEN form equals `oneArg(min).and(max)` |
| Rows.BetweenMeansEmulation | jOOQ/src/main/java/org/jooq/Row2.java:1158-1367 | each BETWEEN method builds a node that holds exactly when its documented emulation does |
| Rows.ComparisonMeansEmulation | jOOQ/src/main/java/org/jooq/Row2.java:265-991 | each comparison method builds a node that holds exactly when its documented emulation does |
| Rows.IsNotDistinctFrom | jOOQ/src/main/java/org/jooq/impl/RowImpl3.java:521-545 | `isNotDistinctFrom` builds `RowIsDistinctFrom(…, true)` for the row and select forms |
| Rows.IsDistinctFrom | jOOQ/src/main/java/org/jooq/impl/RowImpl3.java:546-569 | `isDistinctFrom` builds `RowIsDistinctFrom(…, false)` for the row and select forms |
| Rows.DistinctMeaning | jOOQ/src/main/java/org/jooq/impl/RowImpl3.java:521-569 | without NULLs, IS NOT DISTINCT FROM is `=` and IS DISTINCT FROM is its complement |
| Rows.InRows | jOOQ/src/main/java/org/jooq/impl/RowImpl3.java:575-618 | `in(rows…)` keeps the candidates in order, not negated |
| Rows.NotInRows | jOOQ/src/main/java/org/jooq/impl/RowImpl3.java:590-618 | `notIn(rows…)` has the same candidates, negated |
| Rows.CollectValuesRows | jOOQ/src/main/java/org/jooq/impl/RowImpl3.java:582-585 | the loop collects each record's `valuesRow()` in input order |
| Rows.InRecords | jOOQ/src/main/java/org/jooq/impl/RowImpl3.java:580-588 | `in(records…)` has one candidate per record, in input order, not negated |
| Rows.NotInRecords | jOOQ/src/main/java/org/jooq/impl/RowImpl3.java:595-603 | `notIn(records…)` has the same candidates, negated |
| Rows.InMeansEmulation | jOOQ/src/main/java/org/jooq/Row2.java:1400-1515 | row IN and NOT IN over a list hold exactly when their documented emulations do |
| RowImpl3.FieldAccessors | jOOQ/src/main/java/org/jooq/impl/RowImpl3.java:96-110 | `field1()` to `field3()` are the row's fields in order |
| RowImpl3.CompareValues | jOOQ/src/main/java/org/jooq/impl/RowImpl3.java:125-128 | the i-th value is wrapped with the data type of the i-th field, in argument order |
| RowImpl3.CompareFields | jOOQ/src/main/java/org/jooq/impl/RowImpl3.java:130-133 | the i-th field is made null-safe with the data type of the i-th field, in argument order |
| RowImpl3.BetweenValues | jOOQ/src/main/java/org/jooq/impl/RowImpl3.java:397-505 | the value forms of the BETWEEN family wrap the bound position by position and set the method's flags |
| RowImpl7.FieldAccessors | jOOQ/src/main/java/org/jooq/impl/RowImpl7.java:96-129 | `field1()` to `field7()` are the row's fields in order |
| RowImpl7.CompareValues | jOOQ/src/main/java/org/jooq/impl/RowImpl7.java:145-148 | the i-th of 7 values is wrapped with the data type of the i-th field, in argument order |
| RowImpl7.CompareFields | jOOQ/src/main/java/org/jooq/impl/RowImpl7.java:150-153 | the i-th of 7 fields is made null-safe with the data type of the i-th field, in argument order |
| RowImpl7.BetweenValues | jOOQ/src/main/java/org/jooq/impl/RowImpl7.java:417-535 | the value forms of the BETWEEN family wrap the bound position by position and set the flags (F,F), (F,T), (T,F) or (T,T) |
| RecordImpl5.Record5.constructor | jOOQ/src/main/java/org/jooq/impl/RecordImpl5.java:59-61 | a new record has the row's five fields and five null slots |
| RecordImpl5.Record5.Snapshot | jOOQ/src/main/java/org/jooq/impl/RecordImpl5.java:67-125 | a record is seen as five fields with five values |
| RecordImpl5.Record5.ComponentsAreValues | jOOQ/src/main/java/org/jooq/impl/RecordImpl5.java:177-200 | `componentK()` equals `valueK()`, and the values are the buffer in order |
| RecordImpl5.Record5.FieldsRow | jOOQ/src/main/java/org/jooq/impl/RecordImpl5.java:67-100 | `fieldsRow()` is the row of `field1()` to `field5()` in order |
| RecordImpl5.Record5.ValuesRow | jOOQ/src/main/java/org/jooq/impl/RecordImpl5.java:72-75 | `valuesRow()` has degree 5, and position K holds `valueK` typed like `fieldK` |
| RecordImpl5.Record5.Set | jOOQ/src/main/java/org/jooq/impl/RecordImpl5.java:127-155 | `set(i, v)` writes exactly slot i |
| RecordImpl5.Record5.SetValue1 | jOOQ/src/main/java/org/jooq/impl/RecordImpl5.java:127-131 | `value1(v)` writes only slot 0, returns this, and `value1()` then returns v |
| RecordImpl5.Record5.SetValue2 | jOOQ/src/main/java/org/jooq/impl/RecordImpl5.java:133-137 | `value2(v)` writes only slot 1, returns this, and `value2()` then returns v |
| RecordImpl5.Record5.SetValue3 | jOOQ/src/main/java/org/jooq/impl/RecordImpl5.java:139-143 | `value3(v)` writes only slot 2, returns this, and `value3()` then returns v |
| RecordImpl5.Record5.SetValue4 | jOOQ/src/main/java/org/jooq/impl/RecordImpl5.java:145-149 | `value4(v)` writes only slot 3, returns this, and `value4()` then returns v |
| RecordImpl5.Record5.SetValue5 | jOOQ/src/main/java/org/jooq/impl/RecordImpl5.java:151-155 | `value5(v)` writes only slot 4, returns this, and `value5()` then returns v |
| RecordImpl5.Record5.SetValues | jOOQ/src/main/java/org/jooq/impl/RecordImpl5.java:157-165 | `values(t1, …, t5)` writes slots 0 to 4 in order and returns this |
| RecordCondition.Conjunction | jOOQ/src/main/java/org/jooq/impl/RecordCondition.java:63-75 | the folded condition is built from scalar comparisons and AND only |
| RecordCondition.BuildCondition | jOOQ/src/main/java/org/jooq/impl/RecordCondition.java:63-75 | the loop yields the fold of the non-null slots |
| RecordCondition.Accept | jOOQ/src/main/java/org/jooq/impl/RecordCondition.java:62-78 | `accept` visits the folded condition and nothing else |
| RecordCondition.NonNullSlots | jOOQ/src/main/java/org/jooq/impl/RecordCondition.java:66-69 | the non-null slots are listed once each, in increasing order |
| RecordCondition.ConjunctsPerSlot | jOOQ/src/main/java/org/jooq/impl/RecordCondition.java:66-75 | there is one conjunct per non-null slot, in slot order, comparing the slot's field with its value typed like the field |
| RecordCondition.NoValueNoCondition | jOOQ/src/main/java/org/jooq/impl/RecordCondition.java:63-77 | the condition is `noCondition` exactly when no slot holds a value |
| RecordCondition.ConditionMeaning | jOOQ/src/main/java/org/jooq/impl/RecordCondition.java:63-77 | the condition holds iff the tuple agrees with the record at every non-null slot |
| AlterType.ChosenAction | jOOQ/src/main/java/org/jooq/impl/AlterTypeImpl.java:194-201 | the action chosen is the first set one in the order renameTo, setSchema, addValue, renameValue, or none |
| AlterType.RenderingStartsWithPrefix | jOOQ/src/main/java/org/jooq/impl/AlterTypeImpl.java:191-192 | the rendering always starts "ALTER TYPE <type> " |
| AlterType.ActionByPriority | jOOQ/src/main/java/org/jooq/impl/AlterTypeImpl.java:194-201 | exactly the chosen action's keywords appear, and with no action set only the prefix is rendered |
| AlterType.ActionKeywords | jOOQ/src/main/java/org/jooq/impl/AlterTypeImpl.java:194-201 | each action keyword (RENAME TO, SCHEMA, ADD, RENAME) appears in the rendering iff its action is the one chosen |
| AlterType.RenameValueToOnlyWithRenameValue | jOOQ/src/main/java/org/jooq/impl/AlterTypeImpl.java:200-201 | `renameValueTo` appears only in the RENAME VALUE … TO branch, so set alone it renders nothing |
| AlterType.AlterTypeImpl.constructor | jOOQ/src/main/java/org/jooq/impl/AlterTypeImpl.java:100-117 | the six-slot constructor stores every slot and the configuration |
| AlterType.AlterTypeImpl.Create | jOOQ/src/main/java/org/jooq/impl/AlterTypeImpl.java:85-98 | the two-argument constructor stores the type name and leaves every other slot null |
| AlterType.AlterTypeImpl.RenameTo | jOOQ/src/main/java/org/jooq/impl/AlterTypeImpl.java:128-132 | `renameTo(Name)` assigns its argument, `null` included, to its slot only, and returns this |
| AlterType.AlterTypeImpl.RenameToString | jOOQ/src/main/java/org/jooq/impl/AlterTypeImpl.java:123-127 | `renameTo(String)` is `renameTo(Name)` on the parsed name |
| AlterType.AlterTypeImpl.SetSchema | jOOQ/src/main/java/org/jooq/impl/AlterTypeImpl.java:144-148 | `setSchema(Schema)` assigns its argument, `null` included, to its slot only, and returns this |
| AlterType.AlterTypeImpl.SetSchemaName | jOOQ/src/main/java/org/jooq/impl/AlterTypeImpl.java:139-143 | `setSchema(Name)` is `setSchema(Schema)` on the schema of that name |
| AlterType.AlterTypeImpl.SetSchemaString | jOOQ/src/main/java/org/jooq/impl/AlterTypeImpl.java:134-138 | `setSchema(String)` is `setSchema(Name)` on the parsed name |
| AlterType.AlterTypeImpl.AddValue | jOOQ/src/main/java/org/jooq/impl/AlterTypeImpl.java:155-159 | `addValue(Field)` assigns its argument, `null` included, to its slot only, and returns this |
| AlterType.AlterTypeImpl.AddValueString | jOOQ/src/main/java/org/jooq/impl/AlterTypeImpl.java:150-154 | `addValue(String)` is `addValue(Field)` on the string as a bind value |
| AlterType.AlterTypeImpl.RenameValue | jOOQ/src/main/java/org/jooq/impl/AlterTypeImpl.java:166-170 | `renameValue(Field)` assigns its argument, `null` included, to its slot only, and returns this |
| AlterType.AlterTypeImpl.RenameValueString | jOOQ/src/main/java/org/jooq/impl/AlterTypeImpl.java:161-165 | `renameValue(String)` is `renameValue(Field)` on the string as a bind value |
| AlterType.AlterTypeImpl.To | jOOQ/src/main/java/org/jooq/impl/AlterTypeImpl.java:177-181 | `to(Field)` assigns its argument, `null` included, to `renameValueTo` only, and returns this |
| AlterType.AlterTypeImpl.ToString | jOOQ/src/main/java/org/jooq/impl/AlterTypeImpl.java:172-176 | `to(String)` is `to(Field)` on the string as a bind value |
| AlterType.AlterTypeImpl.Accept | jOOQ/src/main/java/org/jooq/impl/AlterTypeImpl.java:190-201 | emits exactly the prefix followed by the chosen action's rendering |
| AlterType.AlterTypeImpl.Construct | jOOQ/src/main/java/org/jooq/impl/AlterTypeImpl.java:269-272 | `$constructor()` builds a new node on the same configuration |
| AlterType.AlterTypeImpl.QWithType | jOOQ/src/main/java/org/jooq/impl/AlterTypeImpl.java:240-243 | `$type(x)` returns a new node on the same configuration whose `$type()` is x, whose other five accessors are unchanged, and which equals the receiver when x is the current value |
| AlterType.AlterTypeImpl.QWithRenameTo | jOOQ/src/main/java/org/jooq/impl/AlterTypeImpl.java:245-248 | `$renameTo(x)` returns a new node whose `$renameTo()` is x, whose other five accessors are unchanged, and which equals the receiver when x is the current value |
| AlterType.AlterTypeImpl.QWithSetSchema | jOOQ/src/main/java/org/jooq/impl/AlterTypeImpl.java:250-253 | `$setSchema(x)` returns a new node whose `$setSchema()` is x, whose other five accessors are unchanged, and which equals the receiver when x is the current value |
| AlterType.AlterTypeImpl.QWithAddValue | jOOQ/src/main/java/org/jooq/impl/AlterTypeImpl.java:255-258 | `$addValue(x)` returns a new node whose `$addValue()` is x, whose other five accessors are unchanged, and which equals the receiver when x is the current value |
| AlterType.AlterTypeImpl.QWithRenameValue | jOOQ/src/main/java/org/jooq/impl/AlterTypeImpl.java:260-263 | `$renameValue(x)` returns a new node whose `$renameValue()` is x, whose other five accessors are unchanged, and which equals the receiver when x is the current value |
| AlterType.AlterTypeImpl.QWithRenameValueTo | jOOQ/src/main/java/org/jooq/impl/AlterTypeImpl.java:265-268 | `$renameValueTo(x)` returns a new node whose `$renameValueTo()` is x, whose other five accessors are unchanged, and which equals the receiver when x is the current value |
| Position.ConstructorSlots | jOOQ/src/main/java/org/jooq/impl/Position.java:79-106 | the two-argument constructor leaves the start index null; the three-argument one stores all three, a null argument becoming a typed NULL |
| Position.RenderingPerDialect | jOOQ/src/main/java/org/jooq/impl/Position.java:115-194 | without a start index: LOCATE(search, in) on Derby, INSTR(in, search) on SQLite, POSITION(search IN in) elsewhere; with one: LOCATE(search, in, start) on Derby and H2, the CASE emulation elsewhere |
| Position.CallOf | jOOQ/src/main/java/org/jooq/impl/Position.java:115-194 | LOCATE is called exactly on Derby and, given a start index, on H2; INSTR exactly on SQLite without a start index; the CASE emulation exactly for a start index elsewhere; every call passes the node's own `in` and `search`, and LOCATE its start index |
| Position.CallTokensInjective | jOOQ/src/main/java/org/jooq/impl/Position.java:115-194 | the rendered tokens determine the call and its argument order |
| Position.EmulationValue | jOOQ/src/main/java/org/jooq/impl/Position.java:152-157 | the CASE emulation evaluates to `LOCATE(search, in, start)` |
| Position.AcceptMeansPosition | jOOQ/src/main/java/org/jooq/impl/Position.java:115-194 | on every dialect, the rendered call evaluates to the value of the POSITION node |
| Position.WithersAsWrittenAddStartIndex | jOOQ/src/main/java/org/jooq/impl/Position.java:231-248 | as written, a wither on a node without start index adds a typed NULL start index, so the node is no longer equal to the original and renders differently |
| Position.Construct | jOOQ/src/main/java/org/jooq/impl/Position.java:246-248 | the corrected `$constructor` makes `in` and `search` null-safe and keeps the start index as given, a null one null |
| Position.WithIn | jOOQ/src/main/java/org/jooq/impl/Position.java:231-234 | the corrected `$in(x)` replaces exactly the `in` slot (a null x by a typed NULL), and `$in($in())` is an equal node |
| Position.WithSearch | jOOQ/src/main/java/org/jooq/impl/Position.java:236-239 | the corrected `$search(x)` replaces exactly the `search` slot, and `$search($search())` is an equal node |
| Position.WithStartIndex | jOOQ/src/main/java/org/jooq/impl/Position.java:241-244 | the corrected `$startIndex(x)` replaces exactly the start index, keeping a null one null, and `$startIndex($startIndex())` is an equal node |
| Position.EqualsIsIdentity | jOOQ/src/main/java/org/jooq/impl/Position.java:279-290 | two Positions are equal iff in, search and startIndex are pairwise equal |
| SqlEval.IndexFrom | jOOQ/src/main/java/org/jooq/impl/Position.java:152-157 | the 1-based position of the first match at or after an index, with no earlier match, or 0 if there is none |
| SqlEval.IndexFromSuffix | jOOQ/src/main/java/org/jooq/impl/Position.java:154-156 | searching a suffix is searching from its start, with positions shifted |
| SqlEval.EmulationMeansLocate | jOOQ/src/main/java/org/jooq/impl/Position.java:152-157 | `CASE POSITION(s IN SUBSTRING(in, st)) WHEN 0 THEN 0 ELSE that + (st - 1)` is the first match at or after st, or 0 |
| Upper.AcceptIsUpperCall | jOOQ/src/main/java/org/jooq/impl/Upper.java:93-110 | on every dialect, the rendering is one call of `upper` over the node's argument with the node's data type |
| Upper.WithString | jOOQ/src/main/java/org/jooq/impl/Upper.java:133-140 | `$string(x)` builds a node whose argument is x (a typed VARCHAR NULL for null), and `$string($string())` is an equal node |
| Upper.EqualsIsIdentity | jOOQ/src/main/java/org/jooq/impl/Upper.java:167-176 | two Upper nodes are equal iff their arguments are equal |
| Function.MakeMapped | jOOQ/src/main/java/org/jooq/impl/Function.java:65-69 | the full constructor keeps the name, the data type, the schema-mapping flag and the arguments in order |
| Function.MakeNamed | jOOQ/src/main/java/org/jooq/impl/Function.java:61-63 | the Name constructor keeps name, type and arguments and turns schema mapping on |
| Function.MakeFromString | jOOQ/src/main/java/org/jooq/impl/Function.java:57-59 | the String constructor uses the string as a one-part unquoted name, keeps type and arguments, and turns schema mapping on |
| Function.EqualsMeaning | jOOQ/src/main/java/org/jooq/impl/Function.java:103-110 | two Functions are equal iff their qualified names and argument lists are equal, and that is an equivalence |
| Function.EqualsIgnoresTypeAndMapping | jOOQ/src/main/java/org/jooq/impl/Function.java:103-110 | the data type and the schema-mapping flag take no part in equality |
| ScalarSubquery.SelectQueryImpl | jOOQ/src/main/java/org/jooq/impl/ScalarSubquery.java:78 | the query is returned iff it is a `SelectQueryImpl`, and null otherwise |
| ScalarSubquery.RenderedQuery | jOOQ/src/main/java/org/jooq/impl/ScalarSubquery.java:77-91 | on HSQLDB the query handed on never carries a WITH clause of its own; on every other dialect it is the query itself; it is always the query or its wrapping |
| ScalarSubquery.WrapOnlyWithOnHsqldb | jOOQ/src/main/java/org/jooq/impl/ScalarSubquery.java:65-91 | the query is wrapped as `SELECT * FROM (query) AS t` iff it is a `SelectQueryImpl` with a WITH clause and the dialect is HSQLDB; otherwise it is unchanged, and the predicand flag is passed through |
| ScalarSubquery.ConstructorKeepsPredicand | jOOQ/src/main/java/org/jooq/impl/ScalarSubquery.java:99-106 | `$constructor` keeps the predicand flag, and `$arg1` of its result is the query it was given |
| SelectFieldList.ElementPart | jOOQ/src/main/java/org/jooq/impl/SelectFieldList.java:76-87 | tables are visited through `tf()`, rows through `rf()`, and anything else as itself; `asterisk()` is the same `AsteriskImpl.INSTANCE` that the empty list visits |
| SelectFieldList.ElementsInOrder | jOOQ/src/main/java/org/jooq/impl/SelectFieldList.java:76-87 | each element is visited once, in list order, through `acceptElement` |
| SelectFieldList.SeparatorCount | jOOQ/src/main/java/org/jooq/impl/SelectFieldList.java:76-87 | n elements are separated by n - 1 separators |
| SelectFieldList.AcceptTokens | jOOQ/src/main/java/org/jooq/impl/SelectFieldList.java:61-87 | the empty list renders the asterisk; the output is exactly the asterisk iff the list is empty or is `[asterisk()]`; it visits the asterisk iff the list is empty or contains `asterisk()`; `rendersContent` and `declaresFields` are constantly true |
| SelectFieldList.ElementsVisitAsterisk | jOOQ/src/main/java/org/jooq/impl/SelectFieldList.java:66-87 | the elements visit the bare asterisk iff `asterisk()` is one of them |
| SelectFieldList.ElementTokensLength | jOOQ/src/main/java/org/jooq/impl/SelectFieldList.java:76-87 | n elements and their separators are 2n - 1 tokens |
| QualifiedRecordConstant.RenderValues | jOOQ/src/main/java/org/jooq/impl/QualifiedRecordConstant.java:148-153 | the loop emits each value after its separator: "" first, then ", " |
| QualifiedRecordConstant.ToSqlInline | jOOQ/src/main/java/org/jooq/impl/QualifiedRecordConstant.java:131-166 | emits the constructor, the values in parentheses, and the cast on Postgres and YugabyteDB |
| QualifiedRecordConstant.ToSql0 | jOOQ/src/main/java/org/jooq/impl/QualifiedRecordConstant.java:72-129 | every render branch goes through `toSQLInline`, with INLINED values for an inline constant; the parameter type afterwards is the one before |
| QualifiedRecordConstant.Bind0 | jOOQ/src/main/java/org/jooq/impl/QualifiedRecordConstant.java:182-210 | Postgres and YugabyteDB bind `val(value.get(f))` for each field in order; every other dialect fails with the dialect |
| QualifiedRecordConstant.Accept | jOOQ/src/main/java/org/jooq/impl/QualifiedRecordConstant.java:64-70 | a render context renders and binds nothing; a bind context binds and renders nothing |
| QualifiedRecordConstant.ValuesInFieldOrder | jOOQ/src/main/java/org/jooq/impl/QualifiedRecordConstant.java:149-153 | the values appear in field order, each typed like its field |
| QualifiedRecordConstant.ValueTokensShape | jOOQ/src/main/java/org/jooq/impl/QualifiedRecordConstant.java:148-153 | there are two tokens per value, the first separator is empty, and the last value is last |
| QualifiedRecordConstant.SeparatorBetweenValues | jOOQ/src/main/java/org/jooq/impl/QualifiedRecordConstant.java:148-153 | n values are separated by exactly n - 1 ", ", with none before the first value or after the last |
| QualifiedRecordConstant.RowOnPostgresOnly | jOOQ/src/main/java/org/jooq/impl/QualifiedRecordConstant.java:131-166 | `ROW(v1, …, vn)::<qualifier>` on Postgres and YugabyteDB, `<qualifier>(v1, …, vn)` with no cast elsewhere |
| QualifiedRecordConstant.NoKeywordInValues | jOOQ/src/main/java/org/jooq/impl/QualifiedRecordConstant.java:148-153 | the value list contains neither ROW nor "::" |
| QualifiedRecordConstant.InlineValuesAreInlined | jOOQ/src/main/java/org/jooq/impl/QualifiedRecordConstant.java:72-75 | every value of an inline constant renders INLINED, whatever the context's parameter type was |
| Qom.NullSafe | jOOQ/src/main/java/org/jooq/impl/Position.java:88-89 | a null field argument becomes a typed NULL, and any other argument is kept |
| JavaInt.Wrap32 | jOOQ/src/main/java/org/jooq/types/DayToSecond.java:146-158 | Java `int` arithmetic keeps in-range values and wraps others modulo 2^32 |
| JavaInt.Quot | jOOQ/src/main/java/org/jooq/types/DayToSecond.java:146-158 | Java's `/` truncates toward zero: the quotient has the sign of `a` and `Abs(q)·b ≤ Abs(a) < (Abs(q)+1)·b` |
| JavaInt.Rem | jOOQ/src/main/java/org/jooq/types/DayToSecond.java:146-158 | Java's `%` has the sign of the dividend, and `a == (a / b) * b + a % b` |
| JavaInt.Abs32 | jOOQ/src/main/java/org/jooq/types/DayToSecond.java:144-158 | `Math.abs(int)` is the absolute value, except that it returns MIN_VALUE for MIN_VALUE |
| JavaInt.Abs64 | jOOQ/src/main/java/org/jooq/types/DayToSecond.java:418-419 | `Math.abs(long)` is the absolute value, except that it returns MIN_VALUE for MIN_VALUE |
| Text.NatToString | jOOQ/src/main/java/org/jooq/types/DayToSecond.java:705-729 | the decimal text of a count is non-empty digits without a leading zero |
| Text.ParseNatToString | jOOQ/src/main/java/org/jooq/types/DayToSecond.java:705-729 | reading back the decimal text of a count gives the count |
| Text.LeftPad | jOOQ/src/main/java/org/jooq/types/DayToSecond.java:725-726 | left padding reaches the size, keeps the text as a suffix, and pads only with the pad character |
| Text.ParseLeftPad | jOOQ/src/main/java/org/jooq/types/DayToSecond.java:725-726 | zero-padded decimal text reads back as the count |

## Left out

- The floating-point members of `DayToSecond` are not modelled: `doubleValue`,
  `intValue`, `longValue`, `floatValue`, `getTotal*`, `valueOf(double)`,
  `toDuration` and `Duration.parse`. The signed length is modelled exactly as
  an integer count of nanoseconds.
- The string parsers of `DayToSecond` (`valueOf(String)`, `day(String)` and
  the like) delegate to `YearToSecond.parseDS`, which is not part of this model.
- DayToSecondInterval.Equals: `equals` tests `doubleValue() != 0.0`. The model
  tests the exact signed length in nanoseconds (`SignedTotalNanos(x) == 0`)
  instead, so floating-point rounding is not modelled. On normalised
  intervals that length is zero exactly when every component is zero
  (`ZeroIffAllZero`).
- DayToSecondInterval.MakePreservesTotal: proved only when no carry of the
  intended constructor overflows an `int`. Past that the carries wrap around,
  and that is modelled exactly.
- DayToSecondInterval.MakeAsWrittenAgrees: proved only for hours, minutes and
  seconds below 2^30 in magnitude and nano ≠ `Integer.MIN_VALUE`, the range in
  which no carry can overflow.
- DayToSecondInterval.OfSmall: proved only for arguments below 2^30 in
  magnitude and nano ≠ `Integer.MIN_VALUE`. Larger arguments can make a carry
  wrap around, and that is modelled exactly.
- DayToSecondInterval.NegInvolution and AbsOfNeg require a settled interval
  (every component below its unit or at `Integer.MIN_VALUE`). Every interval
  the public constructors, `neg`, `abs` and `valueOf` build is settled.
- DayToSecondInterval.ValueOfSecondsParts: proved only when the day count
  fits an `int` and `nanos` is below 1e9 in magnitude or `Integer.MIN_VALUE`.
  Larger counts are truncated by the `(int)` cast, and larger nanos are carried
  into the seconds; both are modelled exactly, and the length is still given
  by `ValueOfSecondsTotal`.
- DayToSecondInterval.ValueOfSecondsTotal, PositivePartTotal, SplitPartsTotal
  and ValueOfDurationTotal: proved only for a day count below
  `Integer.MAX_VALUE`, for any `nanos`. Larger counts are truncated by the
  `(int)` cast or wrap in the carry, and that is modelled exactly.
- DayToSecondInterval.ToStringLayout, TailLayout and ToStringInjective: proved
  only for non-negative components. The code's `< 10` padding test produces
  texts such as "0-5" for negative components.
- NULL and three-valued logic are not modelled. `RowPredicates` and `SqlEval`
  give every expression a plain integer or string value.
- Rows.DistinctMeaning: without NULLs, IS [NOT] DISTINCT FROM coincides with
  `=`/`<>`. That coincidence is all the lemma states.
- RowPredicates.InEmulation: an empty candidate list is modelled as FALSE.
  The rendering of an empty IN list by `RowInCondition` is not part of this
  model.
- RowPredicates.OverlapsEmulationEval: the interval reading holds only for
  ordered bounds (A ≤ B and C ≤ D), so the lemma requires them. The emulation
  itself and its ScalarOnly contract hold for all inputs.
- The rendering classes `RowCondition`, `RowBetweenCondition`,
  `RowInCondition`, `RowIsDistinctFrom` and `RowSubqueryCondition` are not
  part of this model. They are constructors whose meaning is taken from the
  `Row2` documentation.
- `Tools.rows(result)`, `RowBetweenCondition.and(Record)` and the row
  `mapping` methods are not part of this model.
- Rows.BetweenStep: `DSL.row` receives `null` field arguments unchanged, and
  what it does with them is not part of this model. The field overloads of the
  BETWEEN and DISTINCT methods therefore require non-null fields.
- The change flags that `AbstractRecord.set` keeps are not part of this model.
  Only the value buffer is.
- Position.AcceptMeansPosition: the CASE emulation equals LOCATE only for
  start ≥ 1 (and, for an empty search, start ≤ |in| + 1), so the lemma
  requires that range. Integer overflow of `iadd`/`isub` is not modelled.
- `Names.N_LOCATE`, `N_INSTR`, `N_POSITION` and `N_UPPER` are modelled as
  unquoted names. Name equality is datatype equality.
- ScalarSubquery.ConstructorKeepsPredicand: `Tools.scalarType` is not part of
  this model. It is approximated as the type of the single selected field,
  else an inferred type.
- SelectFieldList.SeparatorCount: `QueryPartList`'s separator and formatting
  are not part of this model. Elements are assumed to be separated by ", ".
- The qualifier of a qualified record is visited as a name part.
  `getInlineConstructor` and `getMappedUDTName` are deprecated, unused by the
  code shown, and not modelled. `AbstractParam.isInline` is modelled as a flag
  of the constant.
- The `Context` machinery (`visit`, `sql`, `formatIndentStart`,
  `formatSeparator`, `qualify`, `declareWindows` and keyword rendering) is
  modelled as the tokens it receives. `ctx.visit(null)` is assumed to emit
  nothing (`AlterType.VisitField`).
- The `Configuration` of an ALTER TYPE node is modelled by its identity only.
- AlterType.AlterTypeImpl.RenameToString, SetSchemaName, SetSchemaString,
  AddValueString, RenameValueString and ToString take non-null arguments.
  What `DSL.name(null)`, `DSL.schema(null)` and `Tools.field(null)` build is
  not part of this model. The `Name`, `Schema` and `Field` setters assign
  `null` as given.
- RecordCondition.Conjunction: the fold starts from `noCondition()` and keeps
  it as the first operand of the first AND. jOOQ's `noCondition().and(x)`
  yields `x` itself. Since `noCondition()` holds, the two have the same truth
  value, which `ConditionMeaning` states; only the model's condition tree is
  one node larger.
- Qom.NullSafe: `Tools.nullSafeNotNull` also marks the typed NULL as not
  nullable. The data type's nullability flag is not part of this model.
- The cases of the dialect switches that are blank in the source, which are
  stripped commercial-dialect branches, are not guessed.

## Findings

| source | as written | input that shows it | evidently intended | confidence | as-written member | corrected member |
|---|---|---|---|---|---|---|
| jOOQ/src/main/java/org/jooq/types/DayToSecond.java:441-445 | for a negative duration `valueOf(Duration)` calls `valueOf(s + 1, 1e9 - n)`, and that call takes the sign from `s + 1` | `Duration.ofMillis(-500)`, where s = -1 and n = 5e8, gives `+0 00:00:00.500000000` | a duration between -1 s and 0 gives a negative interval | not executed | DayToSecondInterval.ValueOfDurationAsWrittenLosesSign | DayToSecondInterval.ValueOfDurationTotal |
| jOOQ/src/main/java/org/jooq/types/DayToSecond.java:144-147 | the carry is guarded by `Math.abs(nano) >= 1e9`, and `Math.abs(Integer.MIN_VALUE)` is negative | `new DayToSecond(0, 0, 0, 0, Integer.MIN_VALUE)` keeps nano = -2147483648 | the nanoseconds are carried into -2 seconds and -147483648 nanoseconds | not executed | DayToSecondInterval.MinValueNanoNotNormalized | DayToSecondInterval.MakePreservesTotal |
| jOOQ/src/main/java/org/jooq/impl/Position.java:231-248 | the withers rebuild through the three-argument constructor, which turns a null start index into a typed NULL | `position(a, b).$search(b)` is not equal to `position(a, b)` and renders through the CASE emulation | a wither replaces exactly one component and keeps a null start index null | not executed | Position.WithersAsWrittenAddStartIndex | Position.WithSearch |

The public constructors, `neg`, `abs` and `valueOf(long, int)` are modelled
on the constructor as written (`MakeAsWritten`), as the code runs them.
`Make` is the corrected constructor of the second finding, and
`MakeAsWrittenAgrees` shows that the two agree wherever the guard cannot meet
`Integer.MIN_VALUE`.
