/**
 * The earlier three-state page of app.js: 105 karts "1".."105" in
 * categories of 15, each `available`, `rented` or `overtime`, with a
 * per-kart countdown or stopwatch interval. The browser's interval table is
 * explicit here: `intervals` maps each live handle to the callback it runs,
 * `nextHandle` is the handle setInterval returns next, and `Fire` runs one
 * callback at a given instant.
 */
module Fleet {
  import opened JsBasics

  const TotalKarts := 105
  const KartsPerCategory := 15
  /** `Math.ceil(TOTAL_KARTS / KARTS_PER_CATEGORY)`. */
  const CategoryCount := CeilDiv(TotalKarts, KartsPerCategory)
  const MinuteMs := 60000

  datatype AppStatus = Available | Rented | Overtime

  /** One `kartStatus` record, without its two DOM elements. */
  datatype AppKart = AppKart(
    status: AppStatus,
    timerId: Option<int>,
    stopwatchId: Option<int>,
    endTime: Option<int>,
    overtimeStartTime: Option<int>)

  /** The body an interval runs: the countdown of startCountdown or the
      stopwatch of startOvertime, each for one kart id. */
  datatype Callback = Countdown(kartId: string) | Stopwatch(kartId: string)

  /** The state the handlers act on. */
  datatype Page = Page(kartStatus: map<string, AppKart>, intervals: map<int, Callback>, nextHandle: int)

  /** What a fired callback shows: nothing, its own cancellation, the
      seconds left (displayed as FormatTimeMMSS(seconds)), the return
      prompt, or the overtime seconds (displayed as
      FormatTimeHHMMSS(seconds)). */
  datatype Shown = Nothing | Cancelled | Remaining(id: string, seconds: int) | ReturnPrompt(id: string)
                 | OvertimeClock(id: string, seconds: int)

  const FreshKart := AppKart(Available, None, None, None, None)

  // ---------------------------------------------------------------------
  // Time display (app.js:23-36)

  function Max0(t: int): nat
  {
    if t < 0 then 0 else t
  }

  /** `formatTimeMMSS(totalSeconds)`. */
  function FormatTimeMMSS(t: int): string
  {
    var s := Max0(t);
    PadStart2(NatToString(s / 60)) + ":" + PadStart2(NatToString(s % 60))
  }

  /** `formatTimeHHMMSS(totalSeconds)`. */
  function FormatTimeHHMMSS(t: int): string
  {
    var s := Max0(t);
    PadStart2(NatToString(s / 3600)) + ":" + PadStart2(NatToString((s % 3600) / 60)) + ":"
      + PadStart2(NatToString(s % 60))
  }

  /** Zero or negative seconds show as all zeros. */
  lemma FormatZero(t: int)
    requires t <= 0
    ensures FormatTimeMMSS(t) == "00:00"
    ensures FormatTimeHHMMSS(t) == "00:00:00"
  {
    var zero := PadStart2(NatToString(0));
    assert zero == "00";
    assert FormatTimeMMSS(t) == zero + ":" + zero;
    assert FormatTimeHHMMSS(t) == zero + ":" + zero + ":" + zero;
  }

  /** MM:SS reads back as minutes and seconds of the clamped input. */
  lemma FormatMMSSFields(t: int)
    ensures var r := FormatTimeMMSS(t);
      && |r| >= 5 && r[|r| - 3] == ':'
      && AllDigits(r[..|r| - 3]) && AllDigits(r[|r| - 2..])
      && DigitsValue(r[|r| - 2..]) < 60
      && DigitsValue(r[..|r| - 3]) * 60 + DigitsValue(r[|r| - 2..]) == Max0(t)
  {
    var s := Max0(t);
    var m, sec := s / 60, s % 60;
    var mm, ss := PadStart2(NatToString(m)), PadStart2(NatToString(sec));
    PaddedValue(m);
    PaddedValue(sec);
    PaddedWidth(sec);
    MinutesReadBack(mm, ss, m, sec);
    SplitMinutes(s);
    assert FormatTimeMMSS(t) == mm + ":" + ss;
  }

  lemma SplitClock(s: nat)
    ensures (s % 3600) / 60 < 60 && s % 60 < 60
    ensures s == (s / 3600) * 3600 + ((s % 3600) / 60) * 60 + s % 60
  {
    var h, rest := s / 3600, s % 3600;
    assert s == h * 3600 + rest;
    assert rest == (rest / 60) * 60 + rest % 60;
    assert rest % 60 == s % 60 by {
      assert s == (h * 60) * 60 + rest;
    }
  }

  lemma Join3(a: string, b: string, c: string)
    requires |b| == 2 && |c| == 2
    ensures var r := a + ":" + b + ":" + c;
      && |r| == |a| + 6 && r[|r| - 3] == ':' && r[|r| - 6] == ':'
      && r[..|r| - 6] == a && r[|r| - 5..|r| - 3] == b && r[|r| - 2..] == c
  {
  }

  /** Three zero-padded fields joined with ':' read back field by field. */
  lemma {:induction false} ClockReadBack(hh: string, mm: string, ss: string, h: nat, m: nat, sec: nat)
    requires |hh| >= 2 && |mm| == 2 && |ss| == 2
    requires AllDigits(hh) && AllDigits(mm) && AllDigits(ss)
    requires DigitsValue(hh) == h && DigitsValue(mm) == m && DigitsValue(ss) == sec
    ensures var r := hh + ":" + mm + ":" + ss;
      && |r| >= 8 && r[|r| - 3] == ':' && r[|r| - 6] == ':'
      && AllDigits(r[..|r| - 6]) && AllDigits(r[|r| - 5..|r| - 3]) && AllDigits(r[|r| - 2..])
      && DigitsValue(r[..|r| - 6]) == h && DigitsValue(r[|r| - 5..|r| - 3]) == m && DigitsValue(r[|r| - 2..]) == sec
  {
    Join3(hh, mm, ss);
  }

  /** HH:MM:SS reads back as hours, minutes and seconds of the clamped
      input. */
  lemma FormatHHMMSSFields(t: int)
    ensures var r := FormatTimeHHMMSS(t);
      && |r| >= 8 && r[|r| - 3] == ':' && r[|r| - 6] == ':'
      && AllDigits(r[..|r| - 6]) && AllDigits(r[|r| - 5..|r| - 3]) && AllDigits(r[|r| - 2..])
      && DigitsValue(r[|r| - 5..|r| - 3]) < 60 && DigitsValue(r[|r| - 2..]) < 60
      && DigitsValue(r[..|r| - 6]) * 3600 + DigitsValue(r[|r| - 5..|r| - 3]) * 60 + DigitsValue(r[|r| - 2..])
         == Max0(t)
  {
    var s := Max0(t);
    var h, m, sec := s / 3600, (s % 3600) / 60, s % 60;
    SplitClock(s);
    var hh, mm, ss := PadStart2(NatToString(h)), PadStart2(NatToString(m)), PadStart2(NatToString(sec));
    PaddedValue(h);
    PaddedValue(m);
    PaddedValue(sec);
    PaddedWidth(m);
    PaddedWidth(sec);
    ClockReadBack(hh, mm, ss, h, m, sec);
    assert FormatTimeHHMMSS(t) == hh + ":" + mm + ":" + ss;
  }

  // ---------------------------------------------------------------------
  // The fleet layout (app.js:16-18, 268-320)

  /** The ids `String(1)` .. `String(k)`. */
  function IdsUpTo(k: int): (ids: set<string>)
    ensures forall n :: 1 <= n <= k ==> NatToString(n) in ids
    decreases k
  {
    if k <= 0 then {} else IdsUpTo(k - 1) + {NatToString(k)}
  }

  /** Only the numbers 1..k are in IdsUpTo(k). */
  lemma {:induction false} IdsUpToOnly(k: int, id: string)
    requires id in IdsUpTo(k)
    ensures exists n :: 1 <= n <= k && id == NatToString(n)
    decreases k
  {
    if id != NatToString(k) {
      IdsUpToOnly(k - 1, id);
    }
  }

  /** The records generateKartButtons builds: every id available, with no
      timer, stopwatch or times. */
  function FleetMap(): map<string, AppKart>
  {
    FreshFor(IdsUpTo(TotalKarts))
  }

  /** A fresh record for each id. */
  function FreshFor(ids: set<string>): (m: map<string, AppKart>)
    ensures m.Keys == ids
  {
    map id | id in ids :: FreshKart
  }

  lemma FreshForStep(k: nat)
    ensures FreshFor(IdsUpTo(k))[NatToString(k + 1) := FreshKart] == FreshFor(IdsUpTo(k + 1))
  {
  }

  /** One category block: its first and last kart number and its ids. */
  datatype Section = Section(first: int, last: int, ids: seq<string>)

  /** `String(first)`, `String(first + 1)`, ... : count ids in order. */
  function NumberIds(first: int, count: nat): (ids: seq<string>)
    requires first >= 1
    ensures |ids| == count
  {
    if count == 0 then [] else NumberIds(first, count - 1) + [NatToString(first + count - 1)]
  }

  lemma {:induction false} NumberIdsAt(first: int, count: nat, j: int)
    requires first >= 1 && 0 <= j < count
    ensures NumberIds(first, count)[j] == NatToString(first + j)
  {
    if j < count - 1 {
      NumberIdsAt(first, count - 1, j);
    }
  }

  /** The block of category i, as generateKartButtons lays it out. */
  function SectionOf(i: nat): Section
  {
    var first := i * KartsPerCategory + 1;
    var last := Min((i + 1) * KartsPerCategory, TotalKarts);
    Section(first, last, NumberIds(first, Max0(last - first + 1)))
  }

  /** The seven blocks of fifteen cover the fleet exactly. */
  lemma FleetMapBlocks()
    ensures FleetMap() == FreshFor(IdsUpTo(CategoryCount * KartsPerCategory))
  {
    assert CategoryCount * KartsPerCategory == TotalKarts;
  }

  /** Every block but none past the seventh ends inside the fleet. */
  lemma BlockInside(i: nat)
    requires i < CategoryCount
    ensures (i + 1) * KartsPerCategory <= TotalKarts
  {
    assert CategoryCount == 7;
    assert i + 1 <= 7;
  }

  /** Appending block i to the first i blocks gives the first i + 1. */
  lemma AppendSection(sections: seq<Section>, section: Section, i: nat)
    requires |sections| == i && forall j :: 0 <= j < i ==> sections[j] == SectionOf(j)
    requires section == SectionOf(i)
    ensures var next := sections + [section];
      |next| == i + 1 && forall j :: 0 <= j < i + 1 ==> next[j] == SectionOf(j)
  {
  }

  /** There are seven categories. */
  lemma CategoryCountIsSeven()
    ensures CategoryCount == 7
  {
  }

  /** `String(n)` is among the ids of a run exactly when n is in the run. */
  lemma InNumberIds(first: int, count: nat, n: int)
    requires first >= 1 && n >= 1
    ensures NatToString(n) in NumberIds(first, count) <==> first <= n < first + count
  {
    var ids := NumberIds(first, count);
    if NatToString(n) in ids {
      var j :| 0 <= j < |ids| && ids[j] == NatToString(n);
      NumberIdsAt(first, count, j);
      NatToStringInjective(first + j, n);
    }
    if first <= n < first + count {
      NumberIdsAt(first, count, n - first);
    }
  }

  /** Kart number n falls in block i exactly when i is (n - 1) / 15. */
  lemma BlockOfNumber(n: int, i: nat)
    requires 1 <= n <= 105 && i < 7
    ensures (i * 15 + 1 <= n <= Min((i + 1) * 15, 105)) <==> i == (n - 1) / 15
  {
    var q, r := (n - 1) / 15, (n - 1) % 15;
    assert n - 1 == q * 15 + r && 0 <= r < 15;
  }

  /** Every kart number 1..105 lies in exactly one category, the
      ((n - 1) / 15)-th. */
  lemma OneSectionPerKart(n: int, i: nat)
    requires 1 <= n <= TotalKarts && i < CategoryCount
    ensures NatToString(n) in SectionOf(i).ids <==> i == (n - 1) / KartsPerCategory
  {
    CategoryCountIsSeven();
    var s := SectionOf(i);
    InNumberIds(s.first, Max0(s.last - s.first + 1), n);
    BlockOfNumber(n, i);
  }

  // ---------------------------------------------------------------------
  // Interval table

  /** `clearInterval(handle)`: a cleared or null handle is ignored. */
  function Clear(intervals: map<int, Callback>, h: Option<int>): (r: map<int, Callback>)
    ensures h.None? ==> r == intervals
    ensures h.Some? ==> r == intervals - {h.value}
  {
    if h.Some? then intervals - {h.value} else intervals
  }

  /** `if (handle) clearInterval(handle)`. */
  function ClearIfSet(intervals: map<int, Callback>, h: Option<int>): map<int, Callback>
  {
    if Truthy(h) then intervals - {h.value} else intervals
  }

  /** The handles a record holds that `if (handle) clearInterval(handle)`
      clears. */
  function HeldHandles(k: AppKart): set<int>
  {
    (if Truthy(k.timerId) then {k.timerId.value} else {})
      + (if Truthy(k.stopwatchId) then {k.stopwatchId.value} else {})
  }

  /** A live interval runs for a kart that still names it, in the status
      its callback expects. */
  predicate Registered(p: Page, h: int)
    requires h in p.intervals
  {
    match p.intervals[h]
    case Countdown(id) =>
      id in p.kartStatus && p.kartStatus[id].timerId == Some(h) && p.kartStatus[id].status == Rented
    case Stopwatch(id) =>
      id in p.kartStatus && p.kartStatus[id].stopwatchId == Some(h) && p.kartStatus[id].status == Overtime
  }

  /** A handle a kart holds is live and runs that kart's callback. */
  predicate Tracked(p: Page, id: string)
    requires id in p.kartStatus
  {
    var k := p.kartStatus[id];
    && (k.timerId.Some? ==> k.timerId.value in p.intervals && p.intervals[k.timerId.value] == Countdown(id))
    && (k.stopwatchId.Some? ==> k.stopwatchId.value in p.intervals && p.intervals[k.stopwatchId.value] == Stopwatch(id))
  }

  /** The interval table and the records agree: handles are positive (so
      truthy) and older than nextHandle, every live interval is registered
      and every held handle is live. */
  predicate Consistent(p: Page)
  {
    && p.nextHandle >= 1
    && (forall h :: h in p.intervals ==> 1 <= h < p.nextHandle && Registered(p, h))
    && (forall id :: id in p.kartStatus ==> Tracked(p, id))
  }

  // ---------------------------------------------------------------------
  // Operations on one kart (app.js:97-226)

  /** `resetKart(kartId)`. */
  function ResetF(p: Page, id: string): (r: Page)
    ensures id !in p.kartStatus ==> r == p
    ensures id in p.kartStatus ==>
      && id in r.kartStatus && r.kartStatus == p.kartStatus[id := r.kartStatus[id]]
      && r.kartStatus[id].status == Available && r.kartStatus[id].endTime.None?
      && r.kartStatus[id].overtimeStartTime.None?
      && !Truthy(r.kartStatus[id].timerId) && !Truthy(r.kartStatus[id].stopwatchId)
    ensures id in p.kartStatus ==> r.intervals == p.intervals - HeldHandles(p.kartStatus[id])
    ensures r.nextHandle == p.nextHandle
  {
    if id !in p.kartStatus then p
    else
      var k := p.kartStatus[id];
      var iv := ClearIfSet(ClearIfSet(p.intervals, k.timerId), k.stopwatchId);
      var k1 := if Truthy(k.timerId) then k.(timerId := None) else k;
      var k2 := if Truthy(k.stopwatchId) then k1.(stopwatchId := None) else k1;
      var k3 := k2.(status := Available, endTime := None, overtimeStartTime := None);
      p.(kartStatus := p.kartStatus[id := k3], intervals := iv)
  }

  /** `startCountdown(kartId, durationMinutes)`. */
  function StartCountdownF(p: Page, id: string, minutes: int, now: int): (r: Page)
    ensures id !in p.kartStatus ==> r == p
    ensures id in p.kartStatus ==>
      && id in r.kartStatus && r.kartStatus == p.kartStatus[id := r.kartStatus[id]]
      && r.kartStatus[id].status == Rented
      && r.kartStatus[id].endTime == Some(now + minutes * MinuteMs)
      && r.kartStatus[id].stopwatchId == None
      && r.kartStatus[id].timerId == Some(p.nextHandle)
      && p.nextHandle in r.intervals && r.intervals[p.nextHandle] == Countdown(id) && r.nextHandle == p.nextHandle + 1
  {
    if id !in p.kartStatus then p
    else
      var k := p.kartStatus[id].(endTime := Some(now + minutes * MinuteMs), status := Rented);
      var iv := ClearIfSet(ClearIfSet(p.intervals, k.timerId), k.stopwatchId);
      var h := p.nextHandle;
      Page(p.kartStatus[id := k.(stopwatchId := None, timerId := Some(h))], iv[h := Countdown(id)], h + 1)
  }

  /** `startOvertime(kartId)`: the end time is left as it was. */
  function StartOvertimeF(p: Page, id: string, now: int): (r: Page)
    ensures id !in p.kartStatus ==> r == p
    ensures id in p.kartStatus ==>
      && id in r.kartStatus && r.kartStatus == p.kartStatus[id := r.kartStatus[id]]
      && r.kartStatus[id].status == Overtime
      && r.kartStatus[id].overtimeStartTime == Some(now)
      && r.kartStatus[id].timerId == None
      && r.kartStatus[id].endTime == p.kartStatus[id].endTime
      && r.kartStatus[id].stopwatchId == Some(p.nextHandle)
      && p.nextHandle in r.intervals && r.intervals[p.nextHandle] == Stopwatch(id) && r.nextHandle == p.nextHandle + 1
  {
    if id !in p.kartStatus then p
    else
      var k := p.kartStatus[id].(status := Overtime, overtimeStartTime := Some(now));
      var iv := ClearIfSet(p.intervals, k.timerId);
      var iv2 := ClearIfSet(iv, k.stopwatchId);
      var h := p.nextHandle;
      Page(p.kartStatus[id := k.(timerId := None, stopwatchId := Some(h))], iv2[h := Stopwatch(id)], h + 1)
  }

  /** The overtime seconds stopOvertime reports: `Math.round(ms / 1000)`
      from the overtime start, or 0 with no (or a zero) start. */
  function OvertimeSeconds(k: AppKart, now: int): (r: int)
    ensures Truthy(k.overtimeStartTime) ==>
      2000 * r <= 2 * (now - k.overtimeStartTime.value) + 1000 < 2000 * (r + 1)
    ensures !Truthy(k.overtimeStartTime) ==> r == 0
  {
    if Truthy(k.overtimeStartTime) then RoundDiv(now - k.overtimeStartTime.value, 1000) else 0
  }

  /** `stopOvertime(kartId)`: only a kart in overtime stops its stopwatch
      and reports its overtime; the status stays `overtime` until the OK
      handler resets it. */
  function StopOvertimeF(p: Page, id: string, now: int): (r: (Page, Option<int>))
    ensures id !in p.kartStatus || p.kartStatus[id].status != Overtime ==> r == (p, None)
    ensures id in p.kartStatus && p.kartStatus[id].status == Overtime ==>
      && r.1 == Some(OvertimeSeconds(p.kartStatus[id], now))
      && id in r.0.kartStatus && r.0.kartStatus == p.kartStatus[id := r.0.kartStatus[id]]
      && r.0.kartStatus[id].status == Overtime
      && !Truthy(r.0.kartStatus[id].stopwatchId)
      && r.0.intervals == ClearIfSet(p.intervals, p.kartStatus[id].stopwatchId)
      && r.0.nextHandle == p.nextHandle
  {
    if id !in p.kartStatus || p.kartStatus[id].status != Overtime then (p, None)
    else
      var k := p.kartStatus[id];
      var p1 := if Truthy(k.stopwatchId)
                then p.(kartStatus := p.kartStatus[id := k.(stopwatchId := None)],
                        intervals := p.intervals - {k.stopwatchId.value})
                else p;
      (p1, Some(OvertimeSeconds(k, now)))
  }

  /** One run of interval h at instant `now` (app.js:142-161, 185-193). A
      handle that is no longer live does not fire. A stale callback clears
      the handle its kart now holds (which need not be its own) and touches
      no record. */
  function FireF(p: Page, h: int, now: int): (r: (Page, Shown))
    ensures h !in p.intervals ==> r == (p, Nothing)
    ensures r.0.nextHandle == p.nextHandle && r.0.kartStatus.Keys == p.kartStatus.Keys
    ensures h in p.intervals && p.intervals[h].Countdown? ==>
      var id := p.intervals[h].kartId;
      && (id !in p.kartStatus ==> r == (p, Cancelled))
      && (id in p.kartStatus && p.kartStatus[id].status != Rented ==>
            r.1 == Cancelled && r.0.kartStatus == p.kartStatus
            && r.0.intervals == Clear(p.intervals, p.kartStatus[id].timerId))
      && (id in p.kartStatus && p.kartStatus[id].status == Rented ==>
            var k := p.kartStatus[id]; var remaining := RoundDiv(NumOf(k.endTime) - now, 1000);
            && (remaining > 0 ==> r == (p, Remaining(id, remaining)))
            && (remaining <= 0 ==>
                  r.1 == ReturnPrompt(id) && r.0.kartStatus == p.kartStatus[id := k.(timerId := None)]
                  && r.0.intervals == Clear(p.intervals, k.timerId)))
    ensures h in p.intervals && p.intervals[h].Stopwatch? ==>
      var id := p.intervals[h].kartId;
      && (id !in p.kartStatus ==> r == (p, Cancelled))
      && (id in p.kartStatus && p.kartStatus[id].status != Overtime ==>
            r.1 == Cancelled && r.0.kartStatus == p.kartStatus
            && r.0.intervals == Clear(p.intervals, p.kartStatus[id].stopwatchId))
      && (id in p.kartStatus && p.kartStatus[id].status == Overtime ==>
            r == (p, OvertimeClock(id, RoundDiv(now - NumOf(p.kartStatus[id].overtimeStartTime), 1000))))
  {
    if h !in p.intervals then (p, Nothing)
    else
      match p.intervals[h]
      case Countdown(id) =>
        if id !in p.kartStatus then (p, Cancelled)
        else
          var k := p.kartStatus[id];
          if k.status != Rented then (p.(intervals := Clear(p.intervals, k.timerId)), Cancelled)
          else
            var remaining := RoundDiv(NumOf(k.endTime) - now, 1000);
            if remaining <= 0 then
              (p.(kartStatus := p.kartStatus[id := k.(timerId := None)], intervals := Clear(p.intervals, k.timerId)),
               ReturnPrompt(id))
            else (p, Remaining(id, remaining))
      case Stopwatch(id) =>
        if id !in p.kartStatus then (p, Cancelled)
        else
          var k := p.kartStatus[id];
          if k.status != Overtime then (p.(intervals := Clear(p.intervals, k.stopwatchId)), Cancelled)
          else (p, OvertimeClock(id, RoundDiv(now - NumOf(k.overtimeStartTime), 1000)))
  }

  // ---------------------------------------------------------------------
  // Handlers (app.js:231-262, 324-376); an empty hidden input is falsy

  function ChooseDurationF(p: Page, id: string, minutes: int, now: int): (r: Page)
    ensures !(id != "" && id in p.kartStatus && p.kartStatus[id].status == Available) ==> r == p
    ensures id != "" && id in p.kartStatus && p.kartStatus[id].status == Available ==>
      r == StartCountdownF(p, id, minutes, now)
  {
    if id != "" && id in p.kartStatus && p.kartStatus[id].status == Available then StartCountdownF(p, id, minutes, now)
    else p
  }

  /** "Yes" on the return prompt. */
  function ReturnYesF(p: Page, id: string): (r: Page)
    ensures !(id != "" && id in p.kartStatus) ==> r == p
    ensures id != "" && id in p.kartStatus ==>
      && id in r.kartStatus && r.kartStatus == p.kartStatus[id := r.kartStatus[id]]
      && r.kartStatus[id].status == Available
      && r.intervals == p.intervals - HeldHandles(p.kartStatus[id]) && r.nextHandle == p.nextHandle
  {
    if id != "" && id in p.kartStatus then ResetF(p, id) else p
  }

  /** "No" on the return prompt: overtime when the kart is rented, or when
      `endTime <= Date.now()`, where a null endTime coerces to 0. */
  function ReturnNoF(p: Page, id: string, now: int): (r: Page)
    ensures !(id != "" && id in p.kartStatus) ==> r == p
    ensures id != "" && id in p.kartStatus ==>
      && id in r.kartStatus && r.kartStatus == p.kartStatus[id := r.kartStatus[id]]
      && var overdue := p.kartStatus[id].status == Rented || NumOf(p.kartStatus[id].endTime) <= now;
      && (overdue ==> r.kartStatus[id].status == Overtime && r.kartStatus[id].overtimeStartTime == Some(now))
      && (!overdue ==> r.kartStatus[id].status == Available && r.intervals == p.intervals - HeldHandles(p.kartStatus[id]))
      && (overdue ==> r == StartOvertimeF(p, id, now))
      && (!overdue ==> r == ResetF(p, id))
  {
    if id != "" && id in p.kartStatus then
      if p.kartStatus[id].status == Rented || NumOf(p.kartStatus[id].endTime) <= now then StartOvertimeF(p, id, now)
      else ResetF(p, id)
    else p
  }

  /** "OK" on the overtime summary. */
  function OvertimeOkF(p: Page, id: string): (r: Page)
    ensures !(id != "" && id in p.kartStatus) ==> r == p
    ensures id != "" && id in p.kartStatus ==>
      && id in r.kartStatus && r.kartStatus == p.kartStatus[id := r.kartStatus[id]]
      && r.kartStatus[id].status == Available
      && r.intervals == p.intervals - HeldHandles(p.kartStatus[id]) && r.nextHandle == p.nextHandle
  {
    if id != "" && id in p.kartStatus then ResetF(p, id) else p
  }

  /** A click on a kart button; `confirmed` is the answer to the
      early-return confirm() of a rented kart. */
  function KartClickF(p: Page, id: string, confirmed: bool, now: int): (r: (Page, Option<int>))
    ensures id !in p.kartStatus || p.kartStatus[id].status == Available ==> r == (p, None)
    ensures id in p.kartStatus && p.kartStatus[id].status == Rented ==>
      && r.1 == None
      && (!confirmed ==> r.0 == p)
      && (confirmed ==> id in r.0.kartStatus && r.0.kartStatus == p.kartStatus[id := r.0.kartStatus[id]]
                        && r.0.kartStatus[id].status == Available
                        && r.0.intervals == p.intervals - HeldHandles(p.kartStatus[id])
                        && r.0.nextHandle == p.nextHandle && r.0 == ResetF(p, id))
    ensures id in p.kartStatus && p.kartStatus[id].status == Overtime ==>
      && r.1 == Some(OvertimeSeconds(p.kartStatus[id], now))
      && id in r.0.kartStatus && r.0.kartStatus[id].status == Overtime
      && !Truthy(r.0.kartStatus[id].stopwatchId)
      && r == StopOvertimeF(p, id, now)
  {
    if id !in p.kartStatus then (p, None)
    else
      match p.kartStatus[id].status
      case Available => (p, None)
      case Rented => (if confirmed then ResetF(p, id) else p, None)
      case Overtime => StopOvertimeF(p, id, now)
  }

  // ---------------------------------------------------------------------
  // Properties

  /** A kart number chosen from a live countdown's handle is the kart's own
      timer; in a consistent page no interval finds its kart in another
      status, so the status guard of both callbacks never cancels one. */
  lemma {:induction false} FireNeverStale(p: Page, h: int, now: int)
    requires Consistent(p)
    ensures FireF(p, h, now).1 != Cancelled
  {
    if h in p.intervals {
      assert Registered(p, h);
    }
  }

  /** A countdown that runs out clears its own timer and leaves the kart
      `rented`. */
  lemma CountdownExpiry(p: Page, h: int, now: int)
    requires Consistent(p) && h in p.intervals && p.intervals[h].Countdown?
    requires var id := p.intervals[h].kartId;
      id in p.kartStatus && RoundDiv(NumOf(p.kartStatus[id].endTime) - now, 1000) <= 0
    ensures var id := p.intervals[h].kartId; var r := FireF(p, h, now);
      && r.1 == ReturnPrompt(id)
      && r.0.kartStatus[id].status == Rented && r.0.kartStatus[id].timerId.None?
      && r.0.intervals == p.intervals - {h}
  {
    assert Registered(p, h);
  }

  /** The generated fleet starts with an empty interval table consistent. */
  lemma FleetConsistent(intervals: map<int, Callback>, nextHandle: int)
    requires intervals == map[] && nextHandle >= 1
    ensures Consistent(Page(FleetMap(), intervals, nextHandle))
  {
  }

  lemma {:induction false} ResetKeeps(p: Page, id: string)
    requires Consistent(p)
    ensures Consistent(ResetF(p, id))
    ensures id in p.kartStatus ==> forall h :: h in ResetF(p, id).intervals ==> ResetF(p, id).intervals[h].kartId != id
    ensures id in p.kartStatus ==> ResetF(p, id).kartStatus[id] == FreshKart
  {
    if id in p.kartStatus {
      var r := ResetF(p, id);
      assert Tracked(p, id);
      forall h | h in r.intervals
        ensures 1 <= h < r.nextHandle && Registered(r, h) && r.intervals[h].kartId != id
      {
        assert Registered(p, h);
      }
      forall x | x in r.kartStatus
        ensures Tracked(r, x)
      {
        assert Tracked(p, x);
        if x != id {
          var k := p.kartStatus[x];
          if k.timerId.Some? {
            assert Registered(p, k.timerId.value);
          }
          if k.stopwatchId.Some? {
            assert Registered(p, k.stopwatchId.value);
          }
        }
      }
    }
  }

  lemma {:induction false} StartCountdownKeeps(p: Page, id: string, minutes: int, now: int)
    requires Consistent(p)
    ensures Consistent(StartCountdownF(p, id, minutes, now))
  {
    if id in p.kartStatus {
      var r := StartCountdownF(p, id, minutes, now);
      assert Tracked(p, id);
      forall h | h in r.intervals
        ensures 1 <= h < r.nextHandle && Registered(r, h)
      {
        if h != p.nextHandle {
          assert Registered(p, h);
        }
      }
      forall x | x in r.kartStatus
        ensures Tracked(r, x)
      {
        assert Tracked(p, x);
        if x != id {
          var k := p.kartStatus[x];
          if k.timerId.Some? {
            assert Registered(p, k.timerId.value);
          }
          if k.stopwatchId.Some? {
            assert Registered(p, k.stopwatchId.value);
          }
        }
      }
    }
  }

  lemma {:induction false} StartOvertimeKeeps(p: Page, id: string, now: int)
    requires Consistent(p)
    ensures Consistent(StartOvertimeF(p, id, now))
  {
    if id in p.kartStatus {
      var r := StartOvertimeF(p, id, now);
      assert Tracked(p, id);
      forall h | h in r.intervals
        ensures 1 <= h < r.nextHandle && Registered(r, h)
      {
        if h != p.nextHandle {
          assert Registered(p, h);
        }
      }
      forall x | x in r.kartStatus
        ensures Tracked(r, x)
      {
        assert Tracked(p, x);
        if x != id {
          var k := p.kartStatus[x];
          if k.timerId.Some? {
            assert Registered(p, k.timerId.value);
          }
          if k.stopwatchId.Some? {
            assert Registered(p, k.stopwatchId.value);
          }
        }
      }
    }
  }

  lemma {:induction false} StopOvertimeKeeps(p: Page, id: string, now: int)
    requires Consistent(p)
    ensures Consistent(StopOvertimeF(p, id, now).0)
  {
    if id in p.kartStatus && p.kartStatus[id].status == Overtime && Truthy(p.kartStatus[id].stopwatchId) {
      var r := StopOvertimeF(p, id, now).0;
      assert Tracked(p, id);
      forall h | h in r.intervals
        ensures 1 <= h < r.nextHandle && Registered(r, h)
      {
        assert Registered(p, h);
      }
      forall x | x in r.kartStatus
        ensures Tracked(r, x)
      {
        assert Tracked(p, x);
        if x != id {
          var k := p.kartStatus[x];
          if k.stopwatchId.Some? {
            assert Registered(p, k.stopwatchId.value);
          }
        }
      }
    }
  }

  lemma {:induction false} FireKeeps(p: Page, h: int, now: int)
    requires Consistent(p)
    ensures Consistent(FireF(p, h, now).0)
  {
    if h in p.intervals && p.intervals[h].Countdown? {
      assert Registered(p, h);
      var id := p.intervals[h].kartId;
      var r := FireF(p, h, now).0;
      if r != p {
        forall g | g in r.intervals
          ensures 1 <= g < r.nextHandle && Registered(r, g)
        {
          assert Registered(p, g);
        }
        forall x | x in r.kartStatus
          ensures Tracked(r, x)
        {
          assert Tracked(p, x);
          if x != id {
            var k := p.kartStatus[x];
            if k.timerId.Some? {
              assert Registered(p, k.timerId.value);
            }
          }
        }
      }
    }
  }

  /** Every handler keeps the page consistent. */
  lemma HandlersKeep(p: Page, id: string, minutes: int, confirmed: bool, now: int)
    requires Consistent(p)
    ensures Consistent(ChooseDurationF(p, id, minutes, now))
    ensures Consistent(ReturnYesF(p, id)) && Consistent(OvertimeOkF(p, id))
    ensures Consistent(ReturnNoF(p, id, now))
    ensures Consistent(KartClickF(p, id, confirmed, now).0)
  {
    StartCountdownKeeps(p, id, minutes, now);
    StartOvertimeKeeps(p, id, now);
    ResetKeeps(p, id);
    StopOvertimeKeeps(p, id, now);
  }

  /** The modal handlers: "yes" and "OK" return a known kart to a fresh
      record with no interval left for it; "no" on a rented kart starts its
      overtime at `now`; an empty or unknown id changes nothing. */
  lemma HandlerOutcomes(p: Page, id: string, now: int)
    requires Consistent(p)
    ensures id != "" && id in p.kartStatus ==>
      && ReturnYesF(p, id).kartStatus[id] == FreshKart && OvertimeOkF(p, id).kartStatus[id] == FreshKart
      && forall h :: h in ReturnYesF(p, id).intervals ==> ReturnYesF(p, id).intervals[h].kartId != id
    ensures id != "" && id in p.kartStatus && p.kartStatus[id].status == Rented ==>
      var k := ReturnNoF(p, id, now).kartStatus[id];
      k.status == Overtime && k.overtimeStartTime == Some(now) && k.timerId.None?
    ensures id == "" || id !in p.kartStatus ==>
      ReturnYesF(p, id) == p && ReturnNoF(p, id, now) == p && OvertimeOkF(p, id) == p
  {
    ResetKeeps(p, id);
  }
}
