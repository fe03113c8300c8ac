/**
 * The page state of script.js: the `karts` object, which the handlers
 * mutate in place, and the two localStorage keys it reads and writes.
 * Each handler is proved against the per-kart functions of module Rental;
 * `now` stands for Date.now(), and the popups, buttons and notifications
 * are not modelled.
 */
module KartApp {
  import opened JsBasics
  import opened Catalog
  import opened History
  import opened Rental

  /** The loop state of tick: the ids still to visit are as they were,
      the others have had their step. */
  predicate TickedExcept(m: map<string, Kart>, t: map<string, Kart>, todo: set<string>, now: int)
  {
    todo <= m.Keys && t.Keys == m.Keys &&
    forall id :: id in t ==> t[id] == if id in todo then m[id] else TickKart(m[id], now)
  }

  lemma TickStep(m: map<string, Kart>, t: map<string, Kart>, todo: set<string>, id: string, now: int)
    requires TickedExcept(m, t, todo, now) && id in todo
    ensures TickedExcept(m, t[id := TickKart(t[id], now)], todo - {id}, now)
    ensures t[id] == m[id]
    ensures !Expires(t[id], now) ==> t[id := TickKart(t[id], now)] == t
  {
  }

  lemma TickDone(m: map<string, Kart>, t: map<string, Kart>, now: int)
    requires TickedExcept(m, t, {}, now)
    ensures t == TickAll(m, now)
  {
  }

  /** The loop state of the merge in loadState. */
  predicate MergedExcept(m: map<string, Kart>, t: map<string, Kart>, entries: map<string, Option<Overlay>>,
                         todo: set<string>)
  {
    todo <= m.Keys && t.Keys == m.Keys &&
    forall id :: id in t ==> t[id] == if id in todo then m[id] else Merged(m[id], entries, id)
  }

  lemma MergeStep(m: map<string, Kart>, t: map<string, Kart>, entries: map<string, Option<Overlay>>,
                  todo: set<string>, id: string)
    requires MergedExcept(m, t, entries, todo) && id in todo
    ensures MergedExcept(m, t[id := Merged(t[id], entries, id)], entries, todo - {id})
    ensures id in entries && entries[id].Some? ==> Merged(t[id], entries, id) == Assign(t[id], entries[id].value)
    ensures !(id in entries && entries[id].Some?) ==> t[id := Merged(t[id], entries, id)] == t
  {
  }

  lemma MergeDone(m: map<string, Kart>, t: map<string, Kart>, entries: map<string, Option<Overlay>>)
    requires MergedExcept(m, t, entries, {})
    ensures t == Overlaid(m, entries)
  {
  }

  /** The `Object.values(karts).forEach` loop of tick with its `needsSave`
      flag. */
  method TickKarts(karts: map<string, Kart>, now: int) returns (ticked: map<string, Kart>, needsSave: bool)
    ensures ticked == TickAll(karts, now)
    ensures needsSave <==> exists id :: id in karts && Expires(karts[id], now)
  {
    needsSave := false;
    ticked := karts;
    var todo := karts.Keys;
    while todo != {}
      invariant TickedExcept(karts, ticked, todo, now)
      invariant needsSave <==> exists id :: id in karts && id !in todo && Expires(karts[id], now)
      decreases |todo|
    {
      var id :| id in todo;
      var k := ticked[id];
      TickStep(karts, ticked, todo, id, now);
      if k.status == Rented && k.rentalEndTime.Some? && now >= k.rentalEndTime.value {
        ticked := ticked[id := k.(status := PendingReturn)];
        needsSave := true;
      }
      todo := todo - {id};
    }
    TickDone(karts, ticked, now);
  }

  class Engine {
    /** The `karts` object, keyed by kart id. */
    var karts: map<string, Kart>
    /** localStorage under `goKartRentalState_v4`. */
    var stored: Slot<Saved>
    /** localStorage under `goKartRentalHistory_v1`. */
    var historyStored: Slot<seq<Entry>>

    /** Every kart has the session fields its status calls for. */
    ghost predicate Valid()
      reads this
    {
      forall id :: id in karts ==> Shaped(karts[id])
    }

    /** The page before loadState, over whatever storage holds. */
    constructor (stored: Slot<Saved>, historyStored: Slot<seq<Entry>>)
      ensures karts == map[] && this.stored == stored && this.historyStored == historyStored
    {
      karts := map[];
      this.stored := stored;
      this.historyStored := historyStored;
    }

    /** `saveState()`. */
    method SaveState()
      modifies this
      ensures stored == Stored(SaveImage(karts))
      ensures karts == old(karts) && historyStored == old(historyStored)
    {
      stored := Stored(SaveImage(karts));
    }

    /** `loadState()`: the catalog defaults, overlaid with the saved state
        or, failing that, saved afresh. The page passes its table, KartData. */
    method LoadState(kartData: seq<Category>)
      modifies this
      ensures var r := Reconcile(CatalogMap(kartData), old(stored));
        && karts == r.karts
        && stored == (if r.reinitialised then Stored(SaveImage(karts)) else old(stored))
      ensures historyStored == old(historyStored)
      ensures !old(stored).Stored? || !old(stored).value.JsonObject? ==> Valid()
    {
      var defaults := InitializeKartData(kartData);
      CatalogIdle(kartData);
      karts := defaults;
      match stored {
        case Absent =>
          karts := InitializeKartData(kartData);
          SaveState();
        case Corrupt =>
          karts := InitializeKartData(kartData);
          SaveState();
        case Stored(parsed) =>
          match parsed {
            case JsonNull =>
              if |karts| > 0 {
                karts := InitializeKartData(kartData);
                SaveState();
              }
            case NotAnObject =>
            case JsonObject(entries) =>
              MergeSaved(entries);
          }
      }
    }

    /** The merge loop of loadState over the catalog ids. */
    method MergeSaved(entries: map<string, Option<Overlay>>)
      modifies this
      ensures karts == Overlaid(old(karts), entries)
      ensures stored == old(stored) && historyStored == old(historyStored)
    {
      var merged := karts;
      var todo := karts.Keys;
      while todo != {}
        invariant MergedExcept(karts, merged, entries, todo)
        invariant unchanged(this)
        decreases |todo|
      {
        var id :| id in todo;
        MergeStep(karts, merged, entries, todo, id);
        if id in entries && entries[id].Some? {
          merged := merged[id := Assign(merged[id], entries[id].value)];
        }
        todo := todo - {id};
      }
      MergeDone(karts, merged, entries);
      karts := merged;
    }

    /** `startRental(kartId, duration, price)`, the duration in milliseconds. */
    method StartRental(kartId: string, now: int, duration: int, price: int)
      modifies this
      ensures var started := kartId in old(karts) && old(karts)[kartId].status == Available;
        && karts == (if kartId in old(karts) then old(karts)[kartId := StartKart(old(karts)[kartId], now, duration, price)]
                     else old(karts))
        && stored == (if started then Stored(SaveImage(karts)) else old(stored))
      ensures historyStored == old(historyStored)
      ensures old(Valid()) ==> Valid()
    {
      if kartId !in karts || karts[kartId].status != Available {
        return;
      }
      var k := karts[kartId];
      karts := karts[kartId := k.(status := Rented, actualRentalStartTime := Some(now),
                                  rentalEndTime := Some(now + duration), stopwatchStartTime := None,
                                  intendedDuration := Some(duration), intendedPrice := Some(price))];
      SaveState();
    }

    /** `tick()`: expired rentals await confirmation, and the state is saved
        when one did. */
    method Tick(now: int) returns (needsSave: bool)
      modifies this
      ensures karts == TickAll(old(karts), now)
      ensures needsSave <==> karts != old(karts)
      ensures needsSave <==> exists id :: id in old(karts) && Expires(old(karts)[id], now)
      ensures stored == (if needsSave then Stored(SaveImage(karts)) else old(stored))
      ensures historyStored == old(historyStored)
      ensures old(Valid()) ==> Valid()
    {
      var ticked;
      ticked, needsSave := TickKarts(karts, now);
      TickAllChanges(karts, now);
      TickAllShaped(karts, now);
      karts := ticked;
      if needsSave {
        SaveState();
      }
    }

    /** `showElapsedTimeAndReset(kartId)`: the message, duration and price
        the confirmation popup will log. It changes nothing. */
    method ShowElapsedTimeAndReset(kartId: string, now: int) returns (bill: Option<Bill>)
      ensures kartId !in karts ==> bill == None
      ensures kartId in karts ==> bill == Some(BillFor(karts[kartId], now))
    {
      if kartId !in karts {
        return None;
      }
      var k := karts[kartId];
      var duration := k.intendedDuration;
      var kind := Finished;
      if k.status == Rented && Truthy(k.actualRentalStartTime) {
        var elapsed := now - k.actualRentalStartTime.value;
        duration := Some(MinuteMs * Max(1, RoundDiv(elapsed, MinuteMs)));
        kind := EarlyReturn;
      } else if k.status == Overdue && Truthy(k.actualRentalStartTime) && Truthy(k.stopwatchStartTime) {
        var overdueMinutes := RoundDiv(now - k.stopwatchStartTime.value, MinuteMs);
        duration := Some(NumOf(k.intendedDuration) + MinuteMs * overdueMinutes);
        kind := OverdueReturn(overdueMinutes);
      } else if k.status == PendingReturn || (k.status == Rented && now >= NumOf(k.rentalEndTime)) {
        kind := PeriodExpired;
      }
      bill := Some(Bill(kind, duration, k.intendedPrice));
    }

    /** `handleReturnConfirmation(kartId, returned)`: only a kart awaiting
        confirmation is affected. "Yes" yields the bill its OK button will
        log; "no" starts the overtime stopwatch now. */
    method HandleReturnConfirmation(kartId: string, returned: bool, now: int) returns (bill: Option<Bill>)
      modifies this
      ensures var pending := kartId in old(karts) && old(karts)[kartId].status == PendingReturn;
        && (!pending ==> bill == None && karts == old(karts) && stored == old(stored))
        && (pending && returned ==>
              bill == Some(BillFor(old(karts)[kartId], now)) && karts == old(karts) && stored == old(stored))
        && (pending && !returned ==>
              && bill == None
              && karts == old(karts)[kartId := ReturnNo(old(karts)[kartId], now)]
              && stored == Stored(SaveImage(karts)))
      ensures historyStored == old(historyStored)
      ensures old(Valid()) ==> Valid()
    {
      if kartId !in karts || karts[kartId].status != PendingReturn {
        return None;
      }
      if returned {
        bill := ShowElapsedTimeAndReset(kartId, now);
      } else {
        var k := karts[kartId];
        karts := karts[kartId := k.(status := Overdue, stopwatchStartTime := Some(now), rentalEndTime := None)];
        SaveState();
        bill := None;
      }
    }

    /** `logRentalToHistory(kartId, duration, price)`. An unparseable
        history throws out of it (`thrown`), writing nothing. */
    method LogRentalToHistory(kartId: string, duration: int, price: Option<int>, now: int) returns (thrown: bool)
      modifies this
      ensures karts == old(karts) && stored == old(stored)
      ensures kartId !in karts ==> !thrown && historyStored == old(historyStored)
      ensures kartId in karts ==>
        && (thrown <==> old(historyStored).Corrupt?)
        && historyStored == (if thrown then old(historyStored)
                             else Stored(GetRentalHistory(old(historyStored)).value + [LogEntry(karts[kartId], duration, price, now)]))
    {
      if kartId !in karts {
        return false;
      }
      var k := karts[kartId];
      var history := GetRentalHistory(historyStored);
      if history.None? {
        return true;
      }
      var rentalStartTime := if Truthy(k.actualRentalStartTime) then k.actualRentalStartTime.value else now - duration;
      var rentalEntry := Entry(k.id, k.display, k.category, rentalStartTime, now, duration, price);
      historyStored := Stored(history.value + [rentalEntry]);
      thrown := false;
    }

    /** `resetKart(kartId, shouldLog, loggedDuration, loggedPrice)`: log the
        session if asked to and its duration is positive, then make the
        kart available and save. A throw while logging leaves everything
        as it was. */
    method ResetKart(kartId: string, shouldLog: bool, duration: Option<int>, price: Option<int>, now: int)
      returns (thrown: bool)
      modifies this
      ensures kartId !in old(karts) ==>
        !thrown && karts == old(karts) && stored == old(stored) && historyStored == old(historyStored)
      ensures kartId in old(karts) ==>
        (thrown <==> ShouldAppend(shouldLog, duration) && old(historyStored).Corrupt?)
      ensures thrown ==> karts == old(karts) && stored == old(stored) && historyStored == old(historyStored)
      ensures kartId in old(karts) && !thrown ==>
        && karts == old(karts)[kartId := ResetFields(old(karts)[kartId])]
        && Idle(karts[kartId])
        && stored == Stored(SaveImage(karts))
        && historyStored == (if ShouldAppend(shouldLog, duration)
                             then Stored(GetRentalHistory(old(historyStored)).value
                                         + [LogEntry(old(karts)[kartId], duration.value, price, now)])
                             else old(historyStored))
      ensures old(Valid()) ==> Valid()
    {
      if kartId !in karts {
        return false;
      }
      thrown := false;
      if shouldLog && duration.Some? && duration.value > 0 {
        thrown := LogRentalToHistory(kartId, duration.value, price, now);
        if thrown {
          return;
        }
      }
      var k := karts[kartId];
      karts := karts[kartId := k.(status := Available, rentalEndTime := None, stopwatchStartTime := None,
                                  actualRentalStartTime := None, intendedDuration := None, intendedPrice := None)];
      SaveState();
    }
  }
}
