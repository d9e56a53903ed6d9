# Daily temperature aggregation (weather benchmark harness)

The harness fetches one month of hourly temperature readings per city, and
reduces each list to per-day statistics in
`WeatherDataCollector.processWeatherData`. This project models that routine.

The routine makes two passes:

- **First pass.** Reading `i` belongs to day `i / 24`. Four arrays of 31
  slots hold each day's running minimum, maximum, sum and count. The first
  reading of a day sets its minimum and maximum. Each later reading of that
  day updates them with `Math.min` / `Math.max`. Every reading is added to the
  sum and raises the count by one.
- **Second pass.** Slots 0 to 30 are visited in order. Slots with count 0 are
  skipped. Each other slot prints one line: day `slot + 1`, min, max and
  `avg = sum / count`.

The Dafny model has two modules:

- `Stats` (`stats.dfy`): the running minimum, maximum, sum and average of a
  block of readings. It proves that the minimum and maximum are attained and
  bound every reading, that the average lies between them, and that a
  constant block has min = max = avg.
- `WeatherDataCollector` (`weather_data_collector.dfy`): the routine itself.
  - `Accumulate` is the first loop over four fresh arrays.
  - `FoldReading` is that loop's body.
  - `Emit` is the second loop. It returns the printed lines as a sequence of
    `DayRecord(day, min, max, avg)`.
  - `ProcessWeatherData` runs both loops.
  - Each method is proved against specification functions: `DayBlock` (the
    readings of one day), `Accumulated` (what the four arrays hold),
    `FoldInto` (what one reading does to the four arrays, the specification
    of `FoldReading`) and `Report` (one record per covered day, in day
    order). Lemmas state what the report means.

Inputs with more than 744 readings (31 × 24) put reading 744 on slot 31.
Java then throws `ArrayIndexOutOfBoundsException` (index 31, length 31) at
the first array access of the loop body, before anything is printed. The
model returns that as the outcome `IndexOutOfBounds(31, 31)`; it is not a
precondition. The routine is therefore not total over arbitrary lengths:
`Nicolas/src/com/weather/Main.java:80-83` fixes the arrays at 31 slots. The only provider
in the repository always returns exactly 744 readings
(`Nicolas/src/com/weather/Main.java:73`), so the harness never takes this path.

Temperatures are Dafny `real`s, not IEEE doubles. The input list is a
`seq<real>`, an immutable value, so the routine cannot modify it.

## Model

| member | source | states |
|---|---|---|
| `WeatherDataCollector.ProcessWeatherData` | Nicolas/src/com/weather/Main.java:79-105 | With at most 744 readings the printed report is exactly `Report(hourly)`; with more, the call ends in the index exception for index 31 of a length-31 array and prints nothing |
| `WeatherDataCollector.Accumulate` | Nicolas/src/com/weather/Main.java:80-97 | After the first loop the four arrays hold the count, sum, min and max of each day's block of the first min(size, 744) readings, with untouched slots at 0; a fault (index 31) is raised exactly when there are more than 744 readings |
| `WeatherDataCollector.FoldReading` | Nicolas/src/com/weather/Main.java:88-96 | One reading changes only its day's slot: the first reading sets min and max, later ones take Math.min / Math.max, the sum grows by the reading and the count by one |
| `WeatherDataCollector.Emit` | Nicolas/src/com/weather/Main.java:99-104 | Scanning slots 0..30 and skipping zero counts yields exactly `Report` of the accumulated readings: one record per covered day, numbered slot + 1, with avg = sum / count |
| `WeatherDataCollector.NothingAccumulated` | Nicolas/src/com/weather/Main.java:80-83 | The four freshly zeroed arrays are the accumulated state of no readings |
| `WeatherDataCollector.SlotAppend` | Nicolas/src/com/weather/Main.java:88-96 | One more reading of a day moves its slot from the statistics of its block to those of the block extended by that reading |
| `WeatherDataCollector.AccumulateStep` | Nicolas/src/com/weather/Main.java:85-97 | Folding reading i into the arrays for readings 0..i-1 gives the arrays for readings 0..i (the first loop's invariant is preserved) |
| `WeatherDataCollector.DayBlockAppend` | Nicolas/src/com/weather/Main.java:85-86 | A new reading joins the block of day `i / 24` only; every other day's block is unchanged |
| `WeatherDataCollector.SlotInBounds` | Nicolas/src/com/weather/Main.java:80-86 | Reading i falls on a slot in 0..30 exactly when i < 744, and reading 744 falls on slot 31 |
| `WeatherDataCollector.DayIndexInBounds` | Nicolas/src/com/weather/Main.java:80-86 | Every index `i / 24` of an n-reading input is in 0..30 if and only if n <= 744 |
| `WeatherDataCollector.DayBlockPositions` | Nicolas/src/com/weather/Main.java:85-87 | A day's block is the readings at positions 24d up to min(24d + 23, size - 1), in order: position i belongs to it exactly when i / 24 == d, and it has at most 24 readings |
| `WeatherDataCollector.DayCountIsIndexCount` | Nicolas/src/com/weather/Main.java:85-96 | A day's count equals the number of indices i < size with i / 24 == d |
| `WeatherDataCollector.BlocksCover` | Nicolas/src/com/weather/Main.java:85-96 | The counts of days 0..n-1 add up to min(size, 24n) |
| `WeatherDataCollector.CountsCoverReadings` | Nicolas/src/com/weather/Main.java:85-97 | For at most 744 readings the 31 counts of the accumulated arrays add up to the number of readings |
| `WeatherDataCollector.DayBlockNonEmpty` | Nicolas/src/com/weather/Main.java:99-100 | A day has a nonzero count exactly when it is below ceil(size / 24) |
| `WeatherDataCollector.ReportDays` | Nicolas/src/com/weather/Main.java:99-103 | The report has ceil(size / 24) records numbered 1, 2, ... in ascending order; a day appears exactly when its count is nonzero; an empty input reports nothing and 744 readings report 31 days |
| `WeatherDataCollector.ReportRecordBounds` | Nicolas/src/com/weather/Main.java:88-101 | Each record's min and max are readings of that day, no reading of the day lies outside [min, max], and min <= avg <= max |
| `WeatherDataCollector.ConstantDay` | Nicolas/src/com/weather/Main.java:88-101 | A day whose readings all equal c is reported as (day + 1, c, c, c) |
| `WeatherDataCollector.ConstantMonth` | Nicolas/src/com/weather/Main.java:85-104 | 744 readings of the same value c are reported as days 1..31, each with min = max = avg = c |
| `Stats.MinimumIsLeast` | Nicolas/src/com/weather/Main.java:88-92 | The running minimum of a block (first reading, then Math.min) is one of its readings and no reading is below it |
| `Stats.MaximumIsGreatest` | Nicolas/src/com/weather/Main.java:88-93 | The running maximum of a block is one of its readings and no reading is above it |
| `Stats.SumAtLeast` | Nicolas/src/com/weather/Main.java:95 | If every reading is at least m, the accumulated sum is at least count × m |
| `Stats.SumAtMost` | Nicolas/src/com/weather/Main.java:95 | If every reading is at most m, the accumulated sum is at most count × m |
| `Stats.AverageWithinRange` | Nicolas/src/com/weather/Main.java:101 | sum / count lies between the block's minimum and maximum |
| `Stats.ConstantBlock` | Nicolas/src/com/weather/Main.java:88-101 | A block of readings all equal to c has min = max = avg = c |

## Left out

- `Main.main` and `Main.runExperiment` (`Nicolas/src/com/weather/Main.java:27-59`): the thread pool, the one-job-at-a-time `runAsync(...).get()` submission, pool shutdown, wall-clock timing and the catch-and-log per city. These are concurrency and clock I/O with no algorithmic content.
- `WeatherDataCollector.getWeatherData` (`Nicolas/src/com/weather/Main.java:69-77`): a stub filled with `Math.random()`. Only its fixed length of 744 readings appears in the model, in `ConstantMonth`.
- The city and coordinate tables and the unused `BASE_URL` / `PARAMETERS` constants (`Nicolas/src/com/weather/Main.java:13-25, 64-67`): plain data.
- IEEE-754 doubles. Temperatures are exact reals, so `Math.min` / `Math.max` have no NaN case, and the sum and the division do not round. In floating point, min <= avg <= max and avg = c can fail in the last bit.
- Console output and the `%2d` / `%.2f` formatting of each line. The model returns the lines as `DayRecord` values, and `City:` and separator lines belong to `runExperiment`.
- Integer overflow of `dailyCount` and of the list index: counts never exceed 24, and the loop stops at index 744 at the latest, so Java's 32-bit `int` never wraps here.
- `null` inputs: a `null` list (NullPointerException at `.size()`, `Nicolas/src/com/weather/Main.java:85`) and a `null` element (NullPointerException on unboxing, `Nicolas/src/com/weather/Main.java:87`) are not modelled, because a `seq<real>` cannot hold them; the only provider (`Nicolas/src/com/weather/Main.java:72-76`) never produces either.
