/** The daily aggregation of WeatherDataCollector.processWeatherData: one pass
    over an hourly reading list fills four 31-slot arrays (minimum, maximum,
    sum and count per day, day = position / 24), then a second pass over the
    31 slots reports every day that received at least one reading. The printed
    report is returned as a sequence of records. */
module WeatherDataCollector {
  import opened Stats

  /** Length of each of the four daily arrays. */
  const DaySlots: nat := 31
  /** The most readings the arrays can take: 31 days of 24 readings. */
  const MaxReadings: nat := 744

  /** One report line: day number (from 1), minimum, maximum and average. */
  datatype DayRecord = DayRecord(day: nat, min: real, max: real, avg: real)

  /** What a call ends with: the report lines, or the array index exception
      raised when a reading falls on a day past the last array slot. */
  datatype Outcome =
    | Printed(records: seq<DayRecord>)
    | IndexOutOfBounds(index: nat, length: nat)

  datatype Option<T> = None | Some(value: T)

  function MinNat(x: nat, y: nat): nat
  {
    if x <= y then x else y
  }

  /** The day (from 0) that reading number i falls on: 24 readings per day. */
  function DayOf(i: nat): nat
  {
    i / 24
  }

  /** Number of days that receive a reading when there are n readings: ceil(n / 24). */
  function DaysCovered(n: nat): nat
  {
    (n + 23) / 24
  }

  /** The readings of day d: positions 24 * d up to min(24 * d + 23, |s| - 1). */
  function DayBlock(s: seq<real>, d: nat): seq<real>
  {
    if 24 * d >= |s| then [] else s[24 * d .. MinNat(24 * d + 24, |s|)]
  }

  /** The record reported for day d, computed from that day's readings. */
  function DayRecordFor(s: seq<real>, d: nat): DayRecord
    requires d < DaysCovered(|s|)
  {
    var b := DayBlock(s, d);
    DayRecord(d + 1, Minimum(b), Maximum(b), Average(b))
  }

  /** The report as a whole: one record per covered day, in day order. */
  function Report(s: seq<real>): seq<DayRecord>
  {
    seq(DaysCovered(|s|), d requires 0 <= d < DaysCovered(|s|) => DayRecordFor(s, d))
  }

  /** The state of one array slot after all readings of its day were folded in:
      count and sum of the block, and min and max once a reading arrived
      (before that they keep the arrays' initial 0.0). */
  predicate DaySlot(b: seq<real>, mn: real, mx: real, sm: real, cnt: int)
  {
    && cnt == |b|
    && sm == Sum(b)
    && (if b == [] then mn == 0.0 && mx == 0.0 else mn == Minimum(b) && mx == Maximum(b))
  }

  /** The contents of the four daily arrays at one moment. */
  datatype DailyArrays = DailyArrays(mins: seq<real>, maxs: seq<real>, sums: seq<real>, counts: seq<int>)

  /** The arrays of a fresh call: 31 slots each, all zero. */
  function Zeroed(): DailyArrays
  {
    DailyArrays(seq(DaySlots, _ => 0.0), seq(DaySlots, _ => 0.0), seq(DaySlots, _ => 0.0), seq(DaySlots, _ => 0))
  }

  /** The four arrays hold, slot by slot, the statistics of the readings s. */
  predicate Accumulated(s: seq<real>, st: DailyArrays)
  {
    && |st.mins| == DaySlots && |st.maxs| == DaySlots && |st.sums| == DaySlots && |st.counts| == DaySlots
    && forall d :: 0 <= d < DaySlots ==> DaySlot(DayBlock(s, d), st.mins[d], st.maxs[d], st.sums[d], st.counts[d])
  }

  /** Folding reading x into slot `day` (the first loop's body): the day's
      first reading sets min and max, later ones update them with Math.min and
      Math.max; x is added to the sum and the count goes up by one. */
  function FoldInto(st: DailyArrays, day: nat, x: real): DailyArrays
    requires day < |st.mins| && day < |st.maxs| && day < |st.sums| && day < |st.counts|
  {
    var first := st.counts[day] == 0;
    DailyArrays(
      st.mins[day := if first then x else Min2(st.mins[day], x)],
      st.maxs[day := if first then x else Max2(st.maxs[day], x)],
      st.sums[day := st.sums[day] + x],
      st.counts[day := st.counts[day] + 1])
  }

  /** Sum of a sequence of counts. */
  function Total(counts: seq<int>): int
  {
    if counts == [] then 0 else Total(counts[..|counts| - 1]) + counts[|counts| - 1]
  }

  // ---------------------------------------------------------------------
  // Facts about day blocks

  /** Day d receives a reading exactly when d < ceil(|s| / 24). */
  lemma DayBlockNonEmpty(s: seq<real>, d: nat)
    ensures DayBlock(s, d) != [] <==> d < DaysCovered(|s|)
  {
  }

  /** The block of day d consists of the readings at exactly those positions i
      with i / 24 == d, in order. */
  lemma DayBlockPositions(s: seq<real>, d: nat)
    ensures |DayBlock(s, d)| <= 24
    ensures forall k :: 0 <= k < |DayBlock(s, d)| ==> DayBlock(s, d)[k] == s[24 * d + k]
    ensures forall i :: 0 <= i < |s| ==> (DayOf(i) == d <==> 24 * d <= i < 24 * d + |DayBlock(s, d)|)
  {
  }

  /** Appending reading x to s adds x to the block of its own day and leaves
      every other block as it was. */
  lemma DayBlockAppend(s: seq<real>, x: real, d: nat)
    ensures DayBlock(s + [x], d)
      == if d == DayOf(|s|) then DayBlock(s, d) + [x] else DayBlock(s, d)
  {
    var t := s + [x];
    assert t[..|s|] == s;
    if d == DayOf(|s|) {
      if 24 * d < |s| {
        assert DayBlock(t, d) == t[24 * d .. |s| + 1];
        assert DayBlock(s, d) == s[24 * d .. |s|];
      }
    }
  }

  /** A day's count equals the number of positions i < |s| with i / 24 == d. */
  lemma {:induction false} DayCountIsIndexCount(s: seq<real>, d: nat)
    ensures |DayBlock(s, d)| == |set i: nat | i < |s| && DayOf(i) == d|
  {
    if s == [] {
      assert (set i: nat | i < |s| && DayOf(i) == d) == {};
    } else {
      var p := s[..|s| - 1];
      var x := s[|s| - 1];
      DayCountIsIndexCount(p, d);
      DayBlockAppend(p, x, d);
      assert p + [x] == s;
      if DayOf(|p|) == d {
        assert (set i: nat | i < |s| && DayOf(i) == d) == (set i: nat | i < |p| && DayOf(i) == d) + {|p|};
      } else {
        assert (set i: nat | i < |s| && DayOf(i) == d) == (set i: nat | i < |p| && DayOf(i) == d);
      }
    }
  }

  /** The blocks of days 0 .. n-1 together hold min(|s|, 24 * n) readings. */
  lemma {:induction false} BlocksCover(s: seq<real>, n: nat)
    ensures Total(seq(n, d requires 0 <= d < n => |DayBlock(s, d)|)) == MinNat(|s|, 24 * n)
  {
    if n > 0 {
      BlocksCover(s, n - 1);
      var c := seq(n, d requires 0 <= d < n => |DayBlock(s, d)|);
      assert c[..n - 1] == seq(n - 1, d requires 0 <= d < n - 1 => |DayBlock(s, d)|);
    }
  }

  /** The 31 counts of accumulated arrays add up to the number of readings. */
  lemma CountsCoverReadings(s: seq<real>, st: DailyArrays)
    requires |s| <= MaxReadings
    requires Accumulated(s, st)
    ensures Total(st.counts) == |s|
  {
    BlocksCover(s, DaySlots);
    assert st.counts == seq(DaySlots, d requires 0 <= d < DaySlots => |DayBlock(s, d)|);
  }

  /** Reading i falls on an array slot exactly when i < 744; reading 744
      falls on slot 31. */
  lemma SlotInBounds(i: nat)
    ensures DayOf(i) < DaySlots <==> i < MaxReadings
    ensures i == MaxReadings ==> DayOf(i) == DaySlots
  {
  }

  /** Every reading's day index is a valid array slot exactly when there are at
      most 744 readings; reading 744 is the first to fall on slot 31. */
  lemma DayIndexInBounds(n: nat)
    ensures (forall i :: 0 <= i < n ==> DayOf(i) < DaySlots) <==> n <= MaxReadings
  {
    if n > MaxReadings {
      assert DayOf(MaxReadings) == DaySlots;
    }
  }

  // ---------------------------------------------------------------------
  // Facts about the report

  /** Records are numbered 1, 2, ... in ascending order, one per day with a
      nonzero count and no other; there are ceil(|s| / 24) of them. */
  lemma ReportDays(s: seq<real>)
    ensures |Report(s)| == DaysCovered(|s|)
    ensures forall k :: 0 <= k < |Report(s)| ==> Report(s)[k].day == k + 1
    ensures forall d: nat :: (exists k :: 0 <= k < |Report(s)| && Report(s)[k].day == d + 1) <==> DayBlock(s, d) != []
    ensures |s| == 0 ==> Report(s) == []
    ensures |s| == MaxReadings ==> |Report(s)| == DaySlots
  {
    forall d: nat
      ensures (exists k :: 0 <= k < |Report(s)| && Report(s)[k].day == d + 1) <==> DayBlock(s, d) != []
    {
      DayBlockNonEmpty(s, d);
      if DayBlock(s, d) != [] {
        assert Report(s)[d].day == d + 1;
      }
    }
  }

  /** Each record's min and max are the least and greatest readings of its day,
      and min <= avg <= max. */
  lemma ReportRecordBounds(s: seq<real>, k: nat)
    requires k < |Report(s)|
    ensures forall i :: 0 <= i < |s| && DayOf(i) == k ==> Report(s)[k].min <= s[i] <= Report(s)[k].max
    ensures exists i :: 0 <= i < |s| && DayOf(i) == k && s[i] == Report(s)[k].min
    ensures exists i :: 0 <= i < |s| && DayOf(i) == k && s[i] == Report(s)[k].max
    ensures Report(s)[k].min <= Report(s)[k].avg <= Report(s)[k].max
  {
    var b := DayBlock(s, k);
    DayBlockNonEmpty(s, k);
    DayBlockPositions(s, k);
    MinimumIsLeast(b);
    MaximumIsGreatest(b);
    AverageWithinRange(b);
    forall i | 0 <= i < |s| && DayOf(i) == k
      ensures Report(s)[k].min <= s[i] <= Report(s)[k].max
    {
      assert s[i] == b[i - 24 * k];
    }
    var jMin :| 0 <= jMin < |b| && b[jMin] == Minimum(b);
    assert DayOf(24 * k + jMin) == k;
    var jMax :| 0 <= jMax < |b| && b[jMax] == Maximum(b);
    assert DayOf(24 * k + jMax) == k;
  }

  /** A day whose readings all equal c is reported with min = max = avg = c. */
  lemma ConstantDay(s: seq<real>, d: nat, c: real)
    requires d < DaysCovered(|s|)
    requires forall i :: 0 <= i < |s| && DayOf(i) == d ==> s[i] == c
    ensures DayRecordFor(s, d) == DayRecord(d + 1, c, c, c)
  {
    var b := DayBlock(s, d);
    DayBlockNonEmpty(s, d);
    DayBlockPositions(s, d);
    forall k | 0 <= k < |b| ensures b[k] == c {
      assert DayOf(24 * d + k) == d;
    }
    ConstantBlock(b, c);
  }

  /** A full month of 744 readings of the same value c is reported as 31 days
      numbered 1 to 31, each with min = max = avg = c. */
  lemma ConstantMonth(c: real)
    ensures Report(seq(MaxReadings, _ => c)) == seq(DaySlots, d requires 0 <= d < DaySlots => DayRecord(d + 1, c, c, c))
  {
    var s := seq(MaxReadings, _ => c);
    forall d | 0 <= d < DaySlots
      ensures Report(s)[d] == DayRecord(d + 1, c, c, c)
    {
      ConstantDay(s, d, c);
    }
  }

  // ---------------------------------------------------------------------
  // The routine itself

  /** Zeroed arrays are the accumulated state of no readings. */
  lemma NothingAccumulated()
    ensures Accumulated([], Zeroed())
  {
  }

  /** One more reading x of a day moves its slot from the statistics of block
      b to those of block b + [x]. */
  lemma SlotAppend(b: seq<real>, x: real, mn: real, mx: real, sm: real, cnt: int)
    requires DaySlot(b, mn, mx, sm, cnt)
    ensures DaySlot(b + [x], if cnt == 0 then x else Min2(mn, x), if cnt == 0 then x else Max2(mx, x), sm + x, cnt + 1)
  {
    assert (b + [x])[..|b|] == b;
  }

  /** Folding reading i into the arrays of readings 0 .. i-1 gives the arrays
      of readings 0 .. i. */
  lemma AccumulateStep(s: seq<real>, i: nat, st: DailyArrays)
    requires i < |s| && DayOf(i) < DaySlots
    requires Accumulated(s[..i], st)
    ensures Accumulated(s[..i + 1], FoldInto(st, DayOf(i), s[i]))
  {
    var day, x, done := DayOf(i), s[i], s[..i];
    var next := FoldInto(st, day, x);
    assert s[..i + 1] == done + [x];
    forall d | 0 <= d < DaySlots
      ensures DaySlot(DayBlock(done + [x], d), next.mins[d], next.maxs[d], next.sums[d], next.counts[d])
    {
      DayBlockAppend(done, x, d);
      if d == day {
        SlotAppend(DayBlock(done, d), x, st.mins[d], st.maxs[d], st.sums[d], st.counts[d]);
      }
    }
  }

  /** Body of the first loop for one reading temp of day `day`, on the arrays. */
  method FoldReading(dailyMin: array<real>, dailyMax: array<real>, dailySum: array<real>, dailyCount: array<int>,
                     day: nat, temp: real)
    requires dailyMin != dailyMax && dailyMin != dailySum && dailyMax != dailySum
    requires day < dailyMin.Length && day < dailyMax.Length && day < dailySum.Length && day < dailyCount.Length
    modifies dailyMin, dailyMax, dailySum, dailyCount
    ensures DailyArrays(dailyMin[..], dailyMax[..], dailySum[..], dailyCount[..])
      == FoldInto(old(DailyArrays(dailyMin[..], dailyMax[..], dailySum[..], dailyCount[..])), day, temp)
  {
    if dailyCount[day] == 0 {
      dailyMin[day] := temp;
      dailyMax[day] := temp;
    } else {
      dailyMin[day] := Min2(dailyMin[day], temp);
      dailyMax[day] := Max2(dailyMax[day], temp);
    }
    dailySum[day] := dailySum[day] + temp;
    dailyCount[day] := dailyCount[day] + 1;
  }

  /** First loop: fold every reading into the slot of its day. A reading past
      slot 30 raises the index exception, which is reported in fault. */
  method Accumulate(hourly: seq<real>)
    returns (dailyMin: array<real>, dailyMax: array<real>, dailySum: array<real>, dailyCount: array<int>,
             fault: Option<nat>)
    ensures fresh(dailyMin) && fresh(dailyMax) && fresh(dailySum) && fresh(dailyCount)
    ensures fault.Some? <==> |hourly| > MaxReadings
    ensures fault.Some? ==> fault.value == DaySlots
    ensures Accumulated(hourly[..MinNat(|hourly|, MaxReadings)],
                        DailyArrays(dailyMin[..], dailyMax[..], dailySum[..], dailyCount[..]))
  {
    dailyMin := new real[DaySlots](_ => 0.0);
    dailyMax := new real[DaySlots](_ => 0.0);
    dailySum := new real[DaySlots](_ => 0.0);
    dailyCount := new int[DaySlots](_ => 0);
    assert DailyArrays(dailyMin[..], dailyMax[..], dailySum[..], dailyCount[..]) == Zeroed();
    NothingAccumulated();
    var i := 0;
    while i < |hourly|
      invariant 0 <= i <= |hourly| && i <= MaxReadings
      invariant dailyMin.Length == DaySlots && dailyCount.Length == DaySlots
      invariant Accumulated(hourly[..i], DailyArrays(dailyMin[..], dailyMax[..], dailySum[..], dailyCount[..]))
    {
      var day := i / 24;
      SlotInBounds(i);
      if day >= dailyCount.Length {
        assert i == MaxReadings == MinNat(|hourly|, MaxReadings);
        fault := Some(day);
        return;
      }
      var temp := hourly[i];
      ghost var before := DailyArrays(dailyMin[..], dailyMax[..], dailySum[..], dailyCount[..]);
      FoldReading(dailyMin, dailyMax, dailySum, dailyCount, day, temp);
      AccumulateStep(hourly, i, before);
      i := i + 1;
    }
    fault := None;
  }

  /** Second loop: go through slots 0 .. 30 in order, skip the ones with no
      reading and report the others as day slot + 1 with avg = sum / count. */
  method Emit(ghost hourly: seq<real>,
              dailyMin: array<real>, dailyMax: array<real>, dailySum: array<real>, dailyCount: array<int>)
    returns (records: seq<DayRecord>)
    requires |hourly| <= MaxReadings
    requires Accumulated(hourly, DailyArrays(dailyMin[..], dailyMax[..], dailySum[..], dailyCount[..]))
    ensures records == Report(hourly)
  {
    ghost var days := DaysCovered(|hourly|);
    records := [];
    for i := 0 to DaySlots
      invariant records == Report(hourly)[..MinNat(i, days)]
    {
      DayBlockNonEmpty(hourly, i);
      if dailyCount[i] != 0 {
        var avg := dailySum[i] / (dailyCount[i] as real);
        assert Report(hourly)[..i + 1] == Report(hourly)[..i] + [Report(hourly)[i]];
        records := records + [DayRecord(i + 1, dailyMin[i], dailyMax[i], avg)];
      }
    }
    assert Report(hourly)[..days] == Report(hourly);
  }

  /** processWeatherData: at most 744 readings give the full report; more
      raise the index exception (index 31, array length 31) before any
      line is reported. */
  method ProcessWeatherData(hourly: seq<real>) returns (outcome: Outcome)
    ensures |hourly| <= MaxReadings ==> outcome == Printed(Report(hourly))
    ensures |hourly| > MaxReadings ==> outcome == IndexOutOfBounds(DaySlots, DaySlots)
  {
    var dailyMin, dailyMax, dailySum, dailyCount, fault := Accumulate(hourly);
    if fault.Some? {
      return IndexOutOfBounds(fault.value, dailyCount.Length);
    }
    assert hourly[..|hourly|] == hourly;
    var records := Emit(hourly, dailyMin, dailyMax, dailySum, dailyCount);
    return Printed(records);
  }
}
