/**
 * The page of app.js as an object: the `kartStatus` records the handlers
 * reassign field by field, and the browser's interval table they register
 * callbacks in. Each method is proved against its function in module
 * Fleet; `now` stands for Date.now().
 */
module FleetApp {
  import opened JsBasics
  import opened Fleet

  /** One pass of generateKartButtons' outer loop: the records and the
      block of category i. */
  method AddSection(ks: map<string, AppKart>, i: nat) returns (ks': map<string, AppKart>, section: Section)
    requires i < CategoryCount && ks == FreshFor(IdsUpTo(i * KartsPerCategory))
    ensures ks' == FreshFor(IdsUpTo((i + 1) * KartsPerCategory)) && section == SectionOf(i)
  {
    var categoryStart := i * KartsPerCategory + 1;
    var categoryEnd := Min((i + 1) * KartsPerCategory, TotalKarts);
    BlockInside(i);
    assert categoryEnd == (i + 1) * KartsPerCategory;
    var ids: seq<string> := [];
    var kartIdNum := categoryStart;
    ks' := ks;
    while kartIdNum <= categoryEnd
      invariant categoryStart <= kartIdNum <= categoryEnd + 1
      invariant ks' == FreshFor(IdsUpTo(kartIdNum - 1))
      invariant ids == NumberIds(categoryStart, kartIdNum - categoryStart)
    {
      var kartId := NatToString(kartIdNum);
      FreshForStep(kartIdNum - 1);
      ids := ids + [kartId];
      ks' := ks'[kartId := FreshKart];
      kartIdNum := kartIdNum + 1;
    }
    section := Section(categoryStart, categoryEnd, ids);
  }

  /** The two nested loops of generateKartButtons. */
  method BuildFleet() returns (ks: map<string, AppKart>, sections: seq<Section>)
    ensures ks == FleetMap()
    ensures |sections| == CategoryCount && forall i :: 0 <= i < |sections| ==> sections[i] == SectionOf(i)
  {
    ks := FreshFor(IdsUpTo(0));
    sections := [];
    var i := 0;
    while i < CategoryCount
      invariant 0 <= i <= CategoryCount
      invariant ks == FreshFor(IdsUpTo(i * KartsPerCategory))
      invariant |sections| == i && forall j :: 0 <= j < i ==> sections[j] == SectionOf(j)
    {
      var section;
      ks, section := AddSection(ks, i);
      AppendSection(sections, section, i);
      sections := sections + [section];
      i := i + 1;
    }
    FleetMapBlocks();
  }

  class FleetPage {
    var kartStatus: map<string, AppKart>
    /** The live `setInterval` registrations, by handle. */
    var intervals: map<int, Callback>
    /** The handle the next `setInterval` returns. */
    var nextHandle: int

    function Snapshot(): Page
      reads this
    {
      Page(kartStatus, intervals, nextHandle)
    }

    ghost predicate Valid()
      reads this
    {
      Consistent(Snapshot())
    }

    /** The page before generateKartButtons: no karts, no intervals. */
    constructor ()
      ensures Snapshot() == Page(map[], map[], 1) && Valid()
    {
      kartStatus := map[];
      intervals := map[];
      nextHandle := 1;
    }

    /** `setInterval(callback, 1000)`. */
    method SetInterval(callback: Callback) returns (h: int)
      modifies this
      ensures h == old(nextHandle) && nextHandle == old(nextHandle) + 1
      ensures intervals == old(intervals)[h := callback] && kartStatus == old(kartStatus)
    {
      h := nextHandle;
      intervals := intervals[h := callback];
      nextHandle := nextHandle + 1;
    }

    /** `clearInterval(handle)`. */
    method ClearInterval(h: Option<int>)
      modifies this
      ensures intervals == Clear(old(intervals), h)
      ensures kartStatus == old(kartStatus) && nextHandle == old(nextHandle)
    {
      if h.Some? {
        intervals := intervals - {h.value};
      }
    }

    /** `generateKartButtons()`: the records of karts "1".."105" and the
        category blocks they are laid out in. */
    method GenerateKartButtons() returns (sections: seq<Section>)
      modifies this
      ensures kartStatus == FleetMap()
      ensures |sections| == CategoryCount && forall i :: 0 <= i < |sections| ==> sections[i] == SectionOf(i)
      ensures intervals == old(intervals) && nextHandle == old(nextHandle)
      ensures old(intervals) == map[] && old(nextHandle) >= 1 ==> Valid()
    {
      var ks;
      ks, sections := BuildFleet();
      kartStatus := ks;
      if old(intervals) == map[] && old(nextHandle) >= 1 {
        FleetConsistent(intervals, nextHandle);
      }
    }

    /** `resetKart(kartId)`. */
    method ResetKart(kartId: string)
      modifies this
      ensures Snapshot() == ResetF(old(Snapshot()), kartId)
      ensures old(Valid()) ==> Valid()
    {
      if old(Valid()) {
        ResetKeeps(Snapshot(), kartId);
      }
      if kartId !in kartStatus {
        return;
      }
      var kart := kartStatus[kartId];
      if Truthy(kart.timerId) {
        ClearInterval(kart.timerId);
        kart := kart.(timerId := None);
      }
      if Truthy(kart.stopwatchId) {
        ClearInterval(kart.stopwatchId);
        kart := kart.(stopwatchId := None);
      }
      kartStatus := kartStatus[kartId := kart.(status := Available, endTime := None, overtimeStartTime := None)];
    }

    /** `startCountdown(kartId, durationMinutes)`. */
    method StartCountdown(kartId: string, durationMinutes: int, now: int)
      modifies this
      ensures Snapshot() == StartCountdownF(old(Snapshot()), kartId, durationMinutes, now)
      ensures old(Valid()) ==> Valid()
    {
      if old(Valid()) {
        StartCountdownKeeps(Snapshot(), kartId, durationMinutes, now);
      }
      if kartId !in kartStatus {
        return;
      }
      var kart := kartStatus[kartId].(endTime := Some(now + durationMinutes * MinuteMs), status := Rented);
      if Truthy(kart.timerId) {
        ClearInterval(kart.timerId);
      }
      if Truthy(kart.stopwatchId) {
        ClearInterval(kart.stopwatchId);
      }
      var h := SetInterval(Countdown(kartId));
      kartStatus := kartStatus[kartId := kart.(stopwatchId := None, timerId := Some(h))];
    }

    /** `startOvertime(kartId)`. */
    method StartOvertime(kartId: string, now: int)
      modifies this
      ensures Snapshot() == StartOvertimeF(old(Snapshot()), kartId, now)
      ensures old(Valid()) ==> Valid()
    {
      if old(Valid()) {
        StartOvertimeKeeps(Snapshot(), kartId, now);
      }
      if kartId !in kartStatus {
        return;
      }
      var kart := kartStatus[kartId].(status := Overtime, overtimeStartTime := Some(now));
      if Truthy(kart.timerId) {
        ClearInterval(kart.timerId);
      }
      if Truthy(kart.stopwatchId) {
        ClearInterval(kart.stopwatchId);
      }
      var h := SetInterval(Stopwatch(kartId));
      kartStatus := kartStatus[kartId := kart.(timerId := None, stopwatchId := Some(h))];
    }

    /** `stopOvertime(kartId)`: the overtime in seconds, which the
        overtime prompt shows as FormatTimeHHMMSS(seconds). */
    method StopOvertime(kartId: string, now: int) returns (seconds: Option<int>)
      modifies this
      ensures (Snapshot(), seconds) == StopOvertimeF(old(Snapshot()), kartId, now)
      ensures old(Valid()) ==> Valid()
    {
      if old(Valid()) {
        StopOvertimeKeeps(Snapshot(), kartId, now);
      }
      if kartId !in kartStatus || kartStatus[kartId].status != Overtime {
        return None;
      }
      var kart := kartStatus[kartId];
      if Truthy(kart.stopwatchId) {
        ClearInterval(kart.stopwatchId);
        kartStatus := kartStatus[kartId := kart.(stopwatchId := None)];
      }
      var elapsedOvertimeSeconds := if Truthy(kart.overtimeStartTime)
                                    then RoundDiv(now - kart.overtimeStartTime.value, 1000) else 0;
      seconds := Some(elapsedOvertimeSeconds);
    }

    /** One run of the interval registered under handle h. */
    method Fire(h: int, now: int) returns (shown: Shown)
      modifies this
      ensures (Snapshot(), shown) == FireF(old(Snapshot()), h, now)
      ensures old(Valid()) ==> Valid() && shown != Cancelled
    {
      if old(Valid()) {
        FireKeeps(Snapshot(), h, now);
        FireNeverStale(Snapshot(), h, now);
      }
      if h !in intervals {
        return Nothing;
      }
      if intervals[h].Countdown? {
        shown := FireCountdown(h, now);
      } else {
        shown := FireStopwatch(h, now);
      }
    }

    /** The countdown body of startCountdown. */
    method FireCountdown(h: int, now: int) returns (shown: Shown)
      requires h in intervals && intervals[h].Countdown?
      modifies this
      ensures (Snapshot(), shown) == FireF(old(Snapshot()), h, now)
    {
      var id := intervals[h].kartId;
      if id !in kartStatus {
        return Cancelled;
      }
      var kart := kartStatus[id];
      if kart.status != Rented {
        ClearInterval(kart.timerId);
        return Cancelled;
      }
      var remainingTime := RoundDiv(NumOf(kart.endTime) - now, 1000);
      if remainingTime <= 0 {
        ClearInterval(kart.timerId);
        kartStatus := kartStatus[id := kart.(timerId := None)];
        shown := ReturnPrompt(id);
      } else {
        shown := Remaining(id, remainingTime);
      }
    }

    /** The stopwatch body of startOvertime. */
    method FireStopwatch(h: int, now: int) returns (shown: Shown)
      requires h in intervals && intervals[h].Stopwatch?
      modifies this
      ensures (Snapshot(), shown) == FireF(old(Snapshot()), h, now)
    {
      var id := intervals[h].kartId;
      if id !in kartStatus {
        return Cancelled;
      }
      var kart := kartStatus[id];
      if kart.status != Overtime {
        ClearInterval(kart.stopwatchId);
        return Cancelled;
      }
      var elapsedSeconds := RoundDiv(now - NumOf(kart.overtimeStartTime), 1000);
      shown := OvertimeClock(id, elapsedSeconds);
    }

    /** The 30-minute and 1-hour buttons of the duration prompt. */
    method ChooseDuration(kartId: string, durationMinutes: int, now: int)
      modifies this
      ensures Snapshot() == ChooseDurationF(old(Snapshot()), kartId, durationMinutes, now)
      ensures old(Valid()) ==> Valid()
    {
      if kartId != "" && kartId in kartStatus && kartStatus[kartId].status == Available {
        StartCountdown(kartId, durationMinutes, now);
      }
    }

    /** "Yes" on the return prompt. */
    method ReturnYes(kartId: string)
      modifies this
      ensures Snapshot() == ReturnYesF(old(Snapshot()), kartId)
      ensures old(Valid()) ==> Valid()
    {
      if kartId != "" && kartId in kartStatus {
        ResetKart(kartId);
      }
    }

    /** "No" on the return prompt. */
    method ReturnNo(kartId: string, now: int)
      modifies this
      ensures Snapshot() == ReturnNoF(old(Snapshot()), kartId, now)
      ensures old(Valid()) ==> Valid()
    {
      if kartId != "" && kartId in kartStatus {
        if kartStatus[kartId].status == Rented || NumOf(kartStatus[kartId].endTime) <= now {
          StartOvertime(kartId, now);
        } else {
          ResetKart(kartId);
        }
      }
    }

    /** OK on the overtime prompt. */
    method OvertimeOk(kartId: string)
      modifies this
      ensures Snapshot() == OvertimeOkF(old(Snapshot()), kartId)
      ensures old(Valid()) ==> Valid()
    {
      if kartId != "" && kartId in kartStatus {
        ResetKart(kartId);
      }
    }

    /** `handleKartClick`; `confirmed` answers the early-return confirm(). */
    method KartClick(kartId: string, confirmed: bool, now: int) returns (overtimeSeconds: Option<int>)
      modifies this
      ensures (Snapshot(), overtimeSeconds) == KartClickF(old(Snapshot()), kartId, confirmed, now)
      ensures old(Valid()) ==> Valid()
    {
      overtimeSeconds := None;
      if kartId !in kartStatus {
        return;
      }
      match kartStatus[kartId].status {
        case Available =>
        case Rented =>
          if confirmed {
            ResetKart(kartId);
          }
        case Overtime =>
          overtimeSeconds := StopOvertime(kartId, now);
      }
    }
  }
}
