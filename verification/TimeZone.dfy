/** Conversions between seconds since the epoch and broken-down time, in UTC and in a zone given by a table of
  transitions.  gmtime_r and timegm are read as the class's own toUtcTime and fromUtcTime, as its FIXMEs say. */
module TimeZone {
  import CInt
  import Date

  const SECONDS_PER_DAY := 24 * 60 * 60

  // struct tm, with the year and month as they are written rather than offset.
  datatype Tm = Tm(year: int, month: int, day: int, hour: int, min: int, sec: int, wday: int, yday: int, isDst: bool, gmtOffset: int)

  // ---------------------------------------------------------------- UTC

  // Floor division into days, hours, minutes and seconds.
  function DayOf(t: int): int { t / SECONDS_PER_DAY }
  function SecondInDay(t: int): int { t % SECONDS_PER_DAY }
  function HourOf(s: int): int { s / 3600 }
  function MinuteOf(s: int): int { s / 60 % 60 }
  function SecondOf(s: int): int { s % 60 }

  // The seconds for which the day number stays where the calendar and 32-bit arithmetic work.
  predicate InRange(t: int) {
    -32044 - Date.EPOCH_DAY <= DayOf(t) <= 536838867 - Date.EPOCH_DAY
  }

  // The broken-down UTC time at t.
  function UtcAt(t: int, yday: bool): Tm {
    var day := DayOf(t) + Date.EPOCH_DAY;
    var s := SecondInDay(t);
    var ymd := Date.ToYearMonthDay(day);
    Tm(ymd.year, ymd.month, ymd.day, HourOf(s), MinuteOf(s), SecondOf(s), Date.WeekDay(day),
       if yday then day - Date.JulianDayNumber(ymd.year, 1, 1) else 0, false, 0)
  }

  method FillHMS(seconds: int) returns (hour: int, min: int, sec: int)
    requires 0 <= seconds < SECONDS_PER_DAY
    ensures hour == HourOf(seconds) && min == MinuteOf(seconds) && sec == SecondOf(seconds)
  {
    sec := seconds % 60;
    var minutes := seconds / 60;
    min := minutes % 60;
    hour := minutes / 60;
  }

  // The C++ operators truncate, so a negative remainder is moved up by a day.
  method ToUtcTime(secondsSinceEpoch: int, yday: bool) returns (utc: Tm)
    requires InRange(secondsSinceEpoch)
    ensures utc == UtcAt(secondsSinceEpoch, yday)
  {
    hide CInt.Div, CInt.ToInt32, HourOf, MinuteOf, SecondOf, Date.ToYearMonthDay, Date.JulianDayNumber, Date.WeekDay;
    TruncatedDay(secondsSinceEpoch);
    var seconds := CInt.ToInt32(CInt.Rem(secondsSinceEpoch, SECONDS_PER_DAY));
    var days := CInt.ToInt32(CInt.Div(secondsSinceEpoch, SECONDS_PER_DAY));
    if seconds < 0 {
      seconds := seconds + SECONDS_PER_DAY;
      days := days - 1;
    }
    assert days == DayOf(secondsSinceEpoch) && seconds == SecondInDay(secondsSinceEpoch);
    DaySplit(secondsSinceEpoch);
    hide DayOf, SecondInDay;
    var hour, min, sec := FillHMS(seconds);
    var date := days + Date.EPOCH_DAY;
    var ymd := Date.ToYearMonthDay(date);
    utc := Tm(ymd.year, ymd.month, ymd.day, hour, min, sec, Date.WeekDay(date), 0, false, 0);
    if yday {
      var startOfYear := Date.JulianDayNumber(ymd.year, 1, 1);
      utc := utc.(yday := date - startOfYear);
    }
  }

  lemma TruncatedDay(t: int)
    requires InRange(t)
    ensures var q, r := CInt.Div(t, SECONDS_PER_DAY), CInt.Rem(t, SECONDS_PER_DAY);
            && CInt.ToInt32(q) == q && CInt.ToInt32(r) == r
            && DayOf(t) == (if r < 0 then q - 1 else q) && SecondInDay(t) == (if r < 0 then r + SECONDS_PER_DAY else r)
  {
    CInt.TruncatedIsFloor(t, SECONDS_PER_DAY);
    DaySplit(t);
    hide CInt.Div, CInt.Rem;
    CInt.ToInt32Fits(CInt.Div(t, SECONDS_PER_DAY));
    CInt.ToInt32Fits(CInt.Rem(t, SECONDS_PER_DAY));
  }

  function FromUtcTime(utc: Tm): int {
    var secondsInDay := utc.hour * 3600 + utc.min * 60 + utc.sec;
    var days := Date.JulianDayNumber(utc.year, utc.month, utc.day) - Date.EPOCH_DAY;
    days * SECONDS_PER_DAY + secondsInDay
  }

  predicate ValidTime(tm: Tm) {
    && Date.InRange(Date.YearMonthDay(tm.year, tm.month, tm.day))
    && 0 <= tm.hour <= 23 && 0 <= tm.min <= 59 && 0 <= tm.sec <= 59
  }

  lemma SecondsSplit(s: int)
    requires 0 <= s < SECONDS_PER_DAY
    ensures 0 <= HourOf(s) <= 23 && 0 <= MinuteOf(s) <= 59 && 0 <= SecondOf(s) <= 59
    ensures HourOf(s) * 3600 + MinuteOf(s) * 60 + SecondOf(s) == s
  {
    assert s / 3600 == s / 60 / 60;
  }

  lemma DaySplit(t: int)
    ensures 0 <= SecondInDay(t) < SECONDS_PER_DAY && DayOf(t) * SECONDS_PER_DAY + SecondInDay(t) == t
  {
  }

  // Seconds to broken-down time and back; the fields are valid, also before the epoch.
  lemma UtcRoundTrip(t: int, yday: bool)
    requires InRange(t)
    ensures ValidTime(UtcAt(t, yday)) && FromUtcTime(UtcAt(t, yday)) == t
  {
    hide Date.ToYearMonthDay, Date.JulianDayNumber, Date.WeekDay, Date.InRange, DayOf, SecondInDay, HourOf, MinuteOf, SecondOf;
    var day := DayOf(t) + Date.EPOCH_DAY;
    Date.DecodeThenEncode(day);
    DaySplit(t);
    SecondsSplit(SecondInDay(t));
  }

  // The week day is in range from the day before Julian day 0 on, and on the Sundays before it; see Date.WeekDayIs.
  lemma UtcWeekDay(t: int, yday: bool)
    ensures var j := DayOf(t) + Date.EPOCH_DAY;
            0 <= UtcAt(t, yday).wday <= 6 <==> j >= -1 || Date.DayOfWeek(j) == 0
  {
    hide DayOf, Date.ToYearMonthDay, Date.JulianDayNumber, Date.WeekDay, Date.DayOfWeek;
    Date.WeekDayIs(DayOf(t) + Date.EPOCH_DAY);
  }

  // What the fields of a UTC time mean, without the conversions: the date of the day, counted from 1 January 1970, the
  // time within it, the day of the week where it is right, and the days since 1 January.
  lemma UtcFieldsMean(t: int, yday: bool)
    requires InRange(t)
    ensures var tm := UtcAt(t, yday); var d := Date.YearMonthDay(tm.year, tm.month, tm.day);
            && Date.Valid(d) && Date.Number(d) == 2440588 + t / 86400
            && 0 <= tm.hour <= 23 && 0 <= tm.min <= 59 && 0 <= tm.sec <= 59
            && 3600 * tm.hour + 60 * tm.min + tm.sec == t % 86400
            && (Date.Number(d) >= -1 ==> tm.wday == (Date.Number(d) + 1) % 7)
            && tm.yday == (if yday then Date.Number(d) - Date.Number(Date.YearMonthDay(tm.year, 1, 1)) else 0)
            && !tm.isDst && tm.gmtOffset == 0
  {
    hide Date.ToYearMonthDay, Date.JulianDayNumber, Date.WeekDay;
    Date.DecodeThenEncode(DayOf(t) + Date.EPOCH_DAY);
    Date.WeekDayIs(DayOf(t) + Date.EPOCH_DAY);
    hide HourOf, MinuteOf, SecondOf;
    SecondsSplit(SecondInDay(t));
  }

  // The epoch is midnight on Thursday, 1 January 1970, and the second before it the last of 1969.
  lemma TheEpoch()
    ensures UtcAt(0, true) == Tm(1970, 1, 1, 0, 0, 0, 4, 0, false, 0)
    ensures var tm := UtcAt(-1, true); tm.year == 1969 && tm.month == 12 && tm.day == 31 && tm.hour == 23 && tm.min == 59 && tm.sec == 59 && tm.yday == 364
  {
    hide Date.ToYearMonthDay, Date.JulianDayNumber, Date.WeekDay, Date.DayOfWeek;
    Date.Epoch();
    Date.LastOf1969();
    Midnight();
    ThursdayEpoch();
  }

  lemma Midnight()
    ensures DayOf(0) == 0 && SecondInDay(0) == 0 && DayOf(-1) == -1 && SecondInDay(-1) == 86399
    ensures HourOf(86399) == 23 && MinuteOf(86399) == 59 && SecondOf(86399) == 59
  {
  }

  lemma ThursdayEpoch()
    ensures Date.WeekDay(2440588) == 4
  {
    Date.WeekDayIs(2440588);
  }

  lemma SecondsJoin(h: int, m: int, s: int)
    requires 0 <= h <= 23 && 0 <= m <= 59 && 0 <= s <= 59
    ensures var x := h * 3600 + m * 60 + s;
            0 <= x < SECONDS_PER_DAY && HourOf(x) == h && MinuteOf(x) == m && SecondOf(x) == s
  {
  }

  lemma DayJoin(day: int, x: int)
    requires 0 <= x < SECONDS_PER_DAY
    ensures DayOf(day * SECONDS_PER_DAY + x) == day && SecondInDay(day * SECONDS_PER_DAY + x) == x
  {
  }

  // Broken-down time to seconds and back.
  lemma TmRoundTrip(tm: Tm)
    requires ValidTime(tm) && InRange(FromUtcTime(tm))
    ensures var back := UtcAt(FromUtcTime(tm), true);
            && back.year == tm.year && back.month == tm.month && back.day == tm.day
            && back.hour == tm.hour && back.min == tm.min && back.sec == tm.sec
  {
    hide Date.ToYearMonthDay, Date.JulianDayNumber, Date.WeekDay, Date.InRange, DayOf, SecondInDay, HourOf, MinuteOf, SecondOf;
    var d := Date.YearMonthDay(tm.year, tm.month, tm.day);
    Date.EncodeThenDecode(d);
    SecondsJoin(tm.hour, tm.min, tm.sec);
    DayJoin(Date.Number(d) - Date.EPOCH_DAY, tm.hour * 3600 + tm.min * 60 + tm.sec);
  }

  // ---------------------------------------------------------------- zones

  datatype Transition = Transition(gmtTime: int, localTime: int, localtimeIdx: int)

  datatype Localtime = Localtime(gmtOffset: int, isDst: bool, arrbIdx: int)

  datatype Data = Data(transitions: seq<Transition>, localtimes: seq<Localtime>)

  // Comp: which of the two times of a transition is compared.
  function Key(x: Transition, compareGmt: bool): int {
    if compareGmt then x.gmtTime else x.localTime
  }

  ghost predicate SortedBy(ts: seq<Transition>, compareGmt: bool) {
    forall i, j :: 0 <= i < j < |ts| ==> Key(ts[i], compareGmt) < Key(ts[j], compareGmt)
  }

  // The table can be read: there is a local time to fall back on and every index points into it.
  ghost predicate Readable(data: Data) {
    data.localtimes != [] && forall i :: 0 <= i < |data.transitions| ==> 0 <= data.transitions[i].localtimeIdx < |data.localtimes|
  }

  // The first transition not before the key, by bisection of a sorted table.
  method LowerBound(ts: seq<Transition>, key: int, compareGmt: bool) returns (pos: nat)
    requires SortedBy(ts, compareGmt)
    ensures pos <= |ts|
    ensures forall i :: 0 <= i < pos ==> Key(ts[i], compareGmt) < key
    ensures forall i :: pos <= i < |ts| ==> key <= Key(ts[i], compareGmt)
  {
    pos := 0;
    var count := |ts|;
    while count > 0
      invariant 0 <= count && pos + count <= |ts|
      invariant forall i :: 0 <= i < pos ==> Key(ts[i], compareGmt) < key
      invariant forall i :: pos + count <= i < |ts| ==> key <= Key(ts[i], compareGmt)
    {
      var step := count / 2;
      if Key(ts[pos + step], compareGmt) < key {
        pos := pos + step + 1;
        count := count - (step + 1);
      } else {
        count := step;
      }
    }
  }

  // The last of the first n transitions that is not after the key, or -1.
  function LastNotAfter(ts: seq<Transition>, key: int, compareGmt: bool, n: nat): int
    requires n <= |ts|
  {
    if n == 0 then -1
    else if Key(ts[n - 1], compareGmt) <= key then n - 1
    else LastNotAfter(ts, key, compareGmt, n - 1)
  }

  // What findLocaltime is for: the local time of the last transition not after the key, or the first local time.
  function LocaltimeAt(data: Data, key: int, compareGmt: bool): Localtime
    requires data.localtimes != []
  {
    var i := LastNotAfter(data.transitions, key, compareGmt, |data.transitions|);
    if 0 <= i < |data.transitions| && 0 <= data.transitions[i].localtimeIdx < |data.localtimes|
    then data.localtimes[data.transitions[i].localtimeIdx]
    else data.localtimes[0]
  }

  lemma {:induction false} LastNotAfterIs(ts: seq<Transition>, key: int, compareGmt: bool, n: nat, i: int)
    requires n <= |ts| && -1 <= i < n
    requires i >= 0 ==> Key(ts[i], compareGmt) <= key
    requires forall k :: i < k < n ==> key < Key(ts[k], compareGmt)
    ensures LastNotAfter(ts, key, compareGmt, n) == i
  {
    if n > i + 1 {
      LastNotAfterIs(ts, key, compareGmt, n - 1, i);
    }
  }

  method FindLocaltime(data: Data, key: int, compareGmt: bool) returns (local: Localtime)
    requires Readable(data) && SortedBy(data.transitions, compareGmt)
    ensures local == LocaltimeAt(data, key, compareGmt)
  {
    var ts := data.transitions;
    if |ts| == 0 || key < Key(ts[0], compareGmt) {
      local := data.localtimes[0];
      LastNotAfterIs(ts, key, compareGmt, |ts|, -1);
    } else {
      var transI := LowerBound(ts, key, compareGmt);
      if transI != |ts| {
        if key != Key(ts[transI], compareGmt) {
          transI := transI - 1;
        }
        local := data.localtimes[ts[transI].localtimeIdx];
        LastNotAfterIs(ts, key, compareGmt, |ts|, transI);
      } else {
        local := data.localtimes[ts[|ts| - 1].localtimeIdx];
        LastNotAfterIs(ts, key, compareGmt, |ts|, |ts| - 1);
      }
    }
  }

  // What is looked up, without the search: the local time of the transition in force, and before all of them the first.
  lemma LocaltimeMeans(data: Data, key: int, compareGmt: bool, i: int)
    requires Readable(data) && -1 <= i < |data.transitions|
    requires i >= 0 ==> (if compareGmt then data.transitions[i].gmtTime else data.transitions[i].localTime) <= key
    requires forall k :: i < k < |data.transitions| ==> key < if compareGmt then data.transitions[k].gmtTime else data.transitions[k].localTime
    ensures LocaltimeAt(data, key, compareGmt) == data.localtimes[if i < 0 then 0 else data.transitions[i].localtimeIdx]
  {
    LastNotAfterIs(data.transitions, key, compareGmt, |data.transitions|, i);
  }

  // The zone's broken-down time at t.
  function LocalAt(data: Data, t: int): Tm
    requires data.localtimes != []
  {
    var local := LocaltimeAt(data, t, true);
    UtcAt(t + local.gmtOffset, true).(isDst := local.isDst, gmtOffset := local.gmtOffset)
  }

  method ToLocalTime(data: Data, seconds: int) returns (localTime: Tm)
    requires Readable(data) && SortedBy(data.transitions, true)
    requires InRange(seconds + LocaltimeAt(data, seconds, true).gmtOffset)
    ensures localTime == LocalAt(data, seconds)
  {
    var local := FindLocaltime(data, seconds, true);
    var localSeconds := seconds + local.gmtOffset;
    var utc := ToUtcTime(localSeconds, true);
    localTime := utc.(isDst := local.isDst, gmtOffset := local.gmtOffset);
  }

  // The instant whose local time is tm, with the hour that occurs twice told apart by isDst.
  function InstantOf(data: Data, tm: Tm): int
    requires data.localtimes != []
  {
    var seconds := FromUtcTime(tm);
    var local := LocaltimeAt(data, seconds, false);
    var tryTm := LocalAt(data, seconds - local.gmtOffset);
    if tm.isDst && !tryTm.isDst && tryTm.hour == tm.hour && tryTm.min == tm.min
    then seconds - 3600 - local.gmtOffset
    else seconds - local.gmtOffset
  }

  // The seconds that fromLocalTime hands to toLocalTime while it tries.
  function TriedSeconds(data: Data, tm: Tm): int
    requires data.localtimes != []
  {
    var t := FromUtcTime(tm) - LocaltimeAt(data, FromUtcTime(tm), false).gmtOffset;
    t + LocaltimeAt(data, t, true).gmtOffset
  }

  method FromLocalTime(data: Data, localTm: Tm) returns (t: int)
    requires Readable(data) && SortedBy(data.transitions, true) && SortedBy(data.transitions, false)
    requires localTm.isDst ==> InRange(TriedSeconds(data, localTm))
    ensures t == InstantOf(data, localTm)
  {
    var seconds := FromUtcTime(localTm);
    var local := FindLocaltime(data, seconds, false);
    if localTm.isDst {
      var tryTm := ToLocalTime(data, seconds - local.gmtOffset);
      if !tryTm.isDst && tryTm.hour == localTm.hour && tryTm.min == localTm.min {
        seconds := seconds - 3600;
      }
    }
    t := seconds - local.gmtOffset;
  }

  // ---------------------------------------------------------------- tables with daylight saving time

  function LocalOf(data: Data, i: int): Localtime
    requires data.localtimes != []
  {
    if 0 <= i < |data.transitions| && 0 <= data.transitions[i].localtimeIdx < |data.localtimes|
    then data.localtimes[data.transitions[i].localtimeIdx] else data.localtimes[0]
  }

  // Standard and daylight saving time alternate, an hour apart, for more than two hours each.
  ghost predicate Alternating(data: Data) {
    && Readable(data)
    && (forall i :: 0 <= i < |data.transitions| ==>
          data.transitions[i].localTime == data.transitions[i].gmtTime + LocalOf(data, i).gmtOffset)
    && (forall i :: 0 <= i < |data.transitions| - 1 ==>
          && data.transitions[i + 1].gmtTime - data.transitions[i].gmtTime > 7200
          && LocalOf(data, i).isDst != LocalOf(data, i + 1).isDst
          && LocalOf(data, i + 1).gmtOffset == LocalOf(data, i).gmtOffset + if LocalOf(data, i).isDst then -3600 else 3600)
  }

  lemma {:induction false} AlternatingGaps(data: Data, i: int, j: int)
    requires Alternating(data) && 0 <= i < j < |data.transitions|
    ensures data.transitions[j].gmtTime - data.transitions[i].gmtTime > 7200
    ensures data.transitions[j].localTime - data.transitions[i].localTime > 3600
    decreases j
  {
    if i < j - 1 {
      AlternatingGaps(data, i, j - 1);
    }
  }

  lemma AlternatingSorted(data: Data)
    requires Alternating(data)
    ensures SortedBy(data.transitions, true) && SortedBy(data.transitions, false)
  {
    forall i, j | 0 <= i < j < |data.transitions|
      ensures data.transitions[i].gmtTime < data.transitions[j].gmtTime && data.transitions[i].localTime < data.transitions[j].localTime
    {
      AlternatingGaps(data, i, j);
    }
  }

  // The transition in force at t.
  lemma InForce(data: Data, t: int) returns (i: int)
    requires Alternating(data) && data.transitions != [] && data.transitions[0].gmtTime <= t
    ensures 0 <= i < |data.transitions| && data.transitions[i].gmtTime <= t
    ensures i + 1 < |data.transitions| ==> t < data.transitions[i + 1].gmtTime
    ensures LocaltimeAt(data, t, true) == LocalOf(data, i)
  {
    AlternatingSorted(data);
    i := LastNotAfter(data.transitions, t, true, |data.transitions|);
    LastNotAfterBounds(data.transitions, t, true, |data.transitions|);
    if i < 0 {
      assert false;
    }
  }

  lemma {:induction false} LastNotAfterBounds(ts: seq<Transition>, key: int, compareGmt: bool, n: nat)
    requires n <= |ts|
    ensures var i := LastNotAfter(ts, key, compareGmt, n);
            && -1 <= i < n && (i >= 0 ==> Key(ts[i], compareGmt) <= key)
            && forall k :: i < k < n ==> key < Key(ts[k], compareGmt)
  {
    if n > 0 && Key(ts[n - 1], compareGmt) > key {
      LastNotAfterBounds(ts, key, compareGmt, n - 1);
    }
  }

  // Looking up by local time finds the transition in force, or the next one during the hour that occurs twice.
  lemma LookedUp(data: Data, t: int, i: int)
    requires Alternating(data) && 0 <= i < |data.transitions| && data.transitions[i].gmtTime <= t
    requires i + 1 < |data.transitions| ==> t < data.transitions[i + 1].gmtTime
    ensures var twice := i + 1 < |data.transitions| && LocalOf(data, i).isDst && t >= data.transitions[i + 1].gmtTime - 3600;
            LocaltimeAt(data, t + LocalOf(data, i).gmtOffset, false) == LocalOf(data, if twice then i + 1 else i)
  {
    var ts := data.transitions;
    var key := t + LocalOf(data, i).gmtOffset;
    var twice := i + 1 < |ts| && LocalOf(data, i).isDst && t >= ts[i + 1].gmtTime - 3600;
    var r := if twice then i + 1 else i;
    forall k | r < k < |ts|
      ensures key < ts[k].localTime
    {
      if k > i + 1 {
        AlternatingGaps(data, i + 1, k);
      }
    }
    LastNotAfterIs(ts, key, false, |ts|, r);
  }

  lemma SameInForce(data: Data, t: int, i: int)
    requires Alternating(data) && 0 <= i < |data.transitions| && data.transitions[i].gmtTime <= t
    requires i + 1 < |data.transitions| ==> t < data.transitions[i + 1].gmtTime
    ensures LocaltimeAt(data, t, true) == LocalOf(data, i)
  {
    forall k | i < k < |data.transitions|
      ensures t < data.transitions[k].gmtTime
    {
      if k > i + 1 {
        AlternatingGaps(data, i + 1, k);
      }
    }
    LastNotAfterIs(data.transitions, t, true, |data.transitions|, i);
  }

  // What a local time shows.
  lemma LocalFields(data: Data, t: int, local: Localtime)
    requires data.localtimes != [] && LocaltimeAt(data, t, true) == local && InRange(t + local.gmtOffset)
    ensures var tm := LocalAt(data, t);
            && FromUtcTime(tm) == t + local.gmtOffset && tm.isDst == local.isDst
            && tm.hour == HourOf(SecondInDay(t + local.gmtOffset)) && tm.min == MinuteOf(SecondInDay(t + local.gmtOffset))
  {
    hide InRange, LocaltimeAt, FromUtcTime, HourOf, MinuteOf, SecondOf, SecondInDay, DayOf, Date.ToYearMonthDay, Date.JulianDayNumber, Date.WeekDay;
    UtcRoundTrip(t + local.gmtOffset, true);
    FromUtcFields(UtcAt(t + local.gmtOffset, true), local);
  }

  // A local time is the UTC time moved by the offset in force, and says which one that is.
  lemma LocalFieldsMean(data: Data, t: int)
    requires data.localtimes != [] && InRange(t + LocaltimeAt(data, t, true).gmtOffset)
    ensures var tm, local := LocalAt(data, t), LocaltimeAt(data, t, true);
            tm.isDst == local.isDst && tm.gmtOffset == local.gmtOffset && FromUtcTime(tm) == t + local.gmtOffset && ValidTime(tm)
  {
    hide InRange, LocaltimeAt, FromUtcTime, UtcAt, ValidTime, HourOf, MinuteOf, SecondInDay;
    var local := LocaltimeAt(data, t, true);
    LocalFields(data, t, local);
    UtcRoundTrip(t + local.gmtOffset, true);
    SameValidity(UtcAt(t + local.gmtOffset, true), local);
  }

  lemma SameValidity(tm: Tm, local: Localtime)
    ensures ValidTime(tm.(isDst := local.isDst, gmtOffset := local.gmtOffset)) <==> ValidTime(tm)
  {
    hide Date.InRange;
  }

  lemma FromUtcFields(tm: Tm, local: Localtime)
    ensures FromUtcTime(tm.(isDst := local.isDst, gmtOffset := local.gmtOffset)) == FromUtcTime(tm)
  {
  }

  ghost predicate InTwiceHour(data: Data, t: int, i: int)
    requires data.localtimes != []
  {
    0 <= i && i + 1 < |data.transitions| && LocalOf(data, i).isDst && t >= data.transitions[i + 1].gmtTime - 3600
  }

  // From the first transition on, local time converts back to the instant it came from, also in the hour that occurs twice.
  lemma LocalRoundTrip(data: Data, t: int)
    requires Alternating(data) && data.transitions != [] && data.transitions[0].gmtTime <= t
    requires InRange(t + LocaltimeAt(data, t, true).gmtOffset)
    ensures InstantOf(data, LocalAt(data, t)) == t
    ensures InRange(TriedSeconds(data, LocalAt(data, t)))
  {
    hide UtcAt, LocaltimeAt, LocalAt, InRange, FromUtcTime, HourOf, MinuteOf, SecondInDay;
    var i := InForce(data, t);
    LookedUp(data, t, i);
    LocalFields(data, t, LocalOf(data, i));
    if InTwiceHour(data, t, i) {
      TwiceHour(data, t, i);
      LocalFields(data, t + 3600, LocalOf(data, i + 1));
    }
    hide LocalOf, Alternating;
  }

  // The instant an hour later shows the same local time, in standard time.
  lemma TwiceHour(data: Data, t: int, i: int)
    requires Alternating(data) && InTwiceHour(data, t, i) && data.transitions[i].gmtTime <= t < data.transitions[i + 1].gmtTime
    ensures LocaltimeAt(data, t + 3600, true) == LocalOf(data, i + 1)
    ensures !LocalOf(data, i + 1).isDst && LocalOf(data, i + 1).gmtOffset == LocalOf(data, i).gmtOffset - 3600
  {
    hide LocaltimeAt, LocalOf;
    if i + 2 < |data.transitions| {
      AlternatingGaps(data, i + 1, i + 2);
    }
    SameInForce(data, t + 3600, i + 1);
  }

  // Before the first transition the code falls back on the first local time of the table. Then the instant comes back
  // exactly if its local time is before that transition's, or if the fallback is daylight saving time and an hour ahead
  // of a first transition to standard time.
  lemma BeforeFirst(data: Data, t: int)
    requires Alternating(data) && data.transitions != [] && t < data.transitions[0].gmtTime
    requires InRange(t + data.localtimes[0].gmtOffset)
    ensures var front, first := data.localtimes[0], LocalOf(data, 0);
            InstantOf(data, LocalAt(data, t)) == t <==>
            t + front.gmtOffset < data.transitions[0].localTime
            || (front.isDst && !first.isDst && front.gmtOffset == first.gmtOffset + 3600)
  {
    var front := data.localtimes[0];
    hide UtcAt, LocalAt, InRange, FromUtcTime, HourOf, MinuteOf, SecondInDay, LocaltimeAt, LocalOf, Alternating, InstantOf;
    FallsBack(data, t);
    LocalFields(data, t, front);
    var key := t + front.gmtOffset;
    var j := LocalIndex(data, key);
    if j < 0 {
      SameLookup(data, t, front);
    } else {
      TriedAfter(data, t, key, j);
      FirstOffset(data, t, key, j);
    }
  }

  lemma FallsBack(data: Data, t: int)
    requires Alternating(data) && data.transitions != [] && t < data.transitions[0].gmtTime
    ensures LocaltimeAt(data, t, true) == data.localtimes[0]
  {
    AlternatingSorted(data);
    LastNotAfterIs(data.transitions, t, true, |data.transitions|, -1);
  }

  // Looking up the local time gives the same offset.
  lemma SameLookup(data: Data, t: int, local: Localtime)
    requires data.localtimes != [] && FromUtcTime(LocalAt(data, t)) == t + local.gmtOffset
    requires LocaltimeAt(data, t + local.gmtOffset, false) == local
    ensures InstantOf(data, LocalAt(data, t)) == t
  {
    hide UtcAt, LocalAt, FromUtcTime, LocaltimeAt;
  }

  lemma LocalIsDst(data: Data, t: int)
    requires data.localtimes != []
    ensures LocalAt(data, t).isDst == LocaltimeAt(data, t, true).isDst
  {
    hide UtcAt, LocaltimeAt;
  }

  // The transition that a local time finds, or -1.
  lemma LocalIndex(data: Data, key: int) returns (j: int)
    requires Alternating(data) && data.transitions != []
    ensures -1 <= j < |data.transitions|
    ensures j < 0 <==> key < data.transitions[0].localTime
    ensures j >= 0 ==> data.transitions[j].localTime <= key && LocaltimeAt(data, key, false) == LocalOf(data, j)
    ensures j >= 0 && j + 1 < |data.transitions| ==> key < data.transitions[j + 1].localTime
    ensures j < 0 ==> LocaltimeAt(data, key, false) == data.localtimes[0]
  {
    j := LastNotAfter(data.transitions, key, false, |data.transitions|);
    LastNotAfterBounds(data.transitions, key, false, |data.transitions|);
    AlternatingSorted(data);
    hide Alternating;
  }

  // What fromLocalTime tries for a daylight-saving local time that finds transition j: it is taken back by an hour
  // exactly if j is to standard time and still in force an hour later.
  lemma TriedAfter(data: Data, t: int, key: int, j: int)
    requires Alternating(data) && 0 <= j < |data.transitions| && data.transitions[j].localTime <= key
    requires j + 1 < |data.transitions| ==> key < data.transitions[j + 1].localTime
    requires LocaltimeAt(data, key, false) == LocalOf(data, j) && FromUtcTime(LocalAt(data, t)) == key && InRange(key)
    requires LocalAt(data, t).hour == HourOf(SecondInDay(key)) && LocalAt(data, t).min == MinuteOf(SecondInDay(key))
    ensures var u := key - LocalOf(data, j).gmtOffset;
            && u >= data.transitions[j].gmtTime
            && InstantOf(data, LocalAt(data, t)) ==
               if LocalAt(data, t).isDst && !LocalOf(data, j).isDst && (j + 1 < |data.transitions| ==> u < data.transitions[j + 1].gmtTime)
               then u - 3600 else u
  {
    hide UtcAt, LocalAt, InRange, FromUtcTime, HourOf, MinuteOf, SecondInDay, LocaltimeAt, LocalOf;
    var u := key - LocalOf(data, j).gmtOffset;
    if j + 1 < |data.transitions| && u >= data.transitions[j + 1].gmtTime {
      NextInForce(data, u, j);
      LocalIsDst(data, u);
    } else {
      SameInForce(data, u, j);
      LocalFields(data, u, LocalOf(data, j));
    }
    hide Alternating;
  }

  // In the hour that no clock shows, the next transition is already in force.
  lemma NextInForce(data: Data, u: int, j: int)
    requires Alternating(data) && 0 <= j && j + 1 < |data.transitions|
    requires data.transitions[j + 1].gmtTime <= u && u + LocalOf(data, j).gmtOffset < data.transitions[j + 1].localTime
    ensures LocaltimeAt(data, u, true) == LocalOf(data, j + 1)
    ensures !LocalOf(data, j).isDst && LocalOf(data, j + 1).isDst
  {
    hide LocaltimeAt, LocalOf;
    if j + 2 < |data.transitions| {
      AlternatingGaps(data, j + 1, j + 2);
    }
    SameInForce(data, u, j + 1);
  }

  // Such an instant can come back only to the first transition, an hour behind the fallback.
  lemma FirstOffset(data: Data, t: int, key: int, j: int)
    requires Alternating(data) && 0 <= j < |data.transitions| && data.transitions[j].localTime <= key
    requires j + 1 < |data.transitions| ==> key < data.transitions[j + 1].localTime
    requires t < data.transitions[0].gmtTime && key == t + data.localtimes[0].gmtOffset
    ensures var u := key - LocalOf(data, j).gmtOffset;
            && u > t
            && (u - 3600 == t && !LocalOf(data, j).isDst && (j + 1 < |data.transitions| ==> u < data.transitions[j + 1].gmtTime) <==>
                 !LocalOf(data, 0).isDst && data.localtimes[0].gmtOffset == LocalOf(data, 0).gmtOffset + 3600)
  {
    hide LocalOf;
    var u := key - LocalOf(data, j).gmtOffset;
    if j > 0 {
      AlternatingGaps(data, 0, j);
    }
    if |data.transitions| > 1 {
      AlternatingGaps(data, 0, 1);
    }
  }

  // Such an instant: an hour ahead until a change at 1000 seconds, the epoch does not come back.
  lemma EpochIsLost()
    ensures var data := Data([Transition(1000, 1000, 1)], [Localtime(3600, false, 0), Localtime(0, false, 0)]);
            Alternating(data) && InstantOf(data, LocalAt(data, 0)) != 0
  {
    var data := Data([Transition(1000, 1000, 1)], [Localtime(3600, false, 0), Localtime(0, false, 0)]);
    assert LocalOf(data, 0) == Localtime(0, false, 0);
    assert Alternating(data) && InRange(3600);
    hide InstantOf, LocalAt, Alternating, InRange;
    BeforeFirst(data, 0);
  }
}
