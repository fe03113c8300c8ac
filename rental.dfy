/**
 * The per-kart lifecycle of script.js as pure values: what localStorage
 * holds under `goKartRentalState_v4`, how loadState lays it over the
 * catalog defaults, the four transitions (startRental, tick,
 * handleReturnConfirmation "no", resetKart), the billed duration of
 * showElapsedTimeAndReset, the history entry of logRentalToHistory, and
 * formatTime. The Engine class in engine.dfy applies these to the `karts`
 * object in place.
 */
module Rental {
  import opened JsBasics
  import opened Catalog
  import opened History

  // ---------------------------------------------------------------------
  // Saved state and startup reconciliation (script.js:56-83)

  /** The fields one saved kart object carries. A field the object lacks is
      `None`; a field present with `null` is `Some(None)`. */
  datatype Overlay = Overlay(
    id: Option<string>,
    display: Option<string>,
    category: Option<string>,
    price30: Option<int>,
    price1h: Option<int>,
    status: Option<Status>,
    rentalEndTime: Option<Option<int>>,
    stopwatchStartTime: Option<Option<int>>,
    actualRentalStartTime: Option<Option<int>>,
    intendedDuration: Option<Option<int>>,
    intendedPrice: Option<Option<int>>)

  /** What JSON.parse returns for the saved text: `null`, any other value
      that is not an object (a number, a string, an array, a boolean), or an
      object whose property under each id is either falsy (`None`) or a kart
      object. */
  datatype Saved = JsonNull | NotAnObject | JsonObject(entries: map<string, Option<Overlay>>)

  function Pick<T>(o: Option<T>, d: T): T
  {
    if o.Some? then o.value else d
  }

  /** `Object.assign(kart, saved)`: every field the saved object carries
      replaces the kart's, the others stay. */
  function Assign(k: Kart, o: Overlay): (r: Kart)
    ensures o.status.Some? ==> r.status == o.status.value
    ensures o.status.None? ==> r.status == k.status
    ensures o.price30.Some? ==> r.price30 == o.price30.value
    ensures o.rentalEndTime.None? ==> r.rentalEndTime == k.rentalEndTime
  {
    Kart(
      Pick(o.id, k.id), Pick(o.display, k.display), Pick(o.category, k.category),
      Pick(o.price30, k.price30), Pick(o.price1h, k.price1h), Pick(o.status, k.status),
      Pick(o.rentalEndTime, k.rentalEndTime), Pick(o.stopwatchStartTime, k.stopwatchStartTime),
      Pick(o.actualRentalStartTime, k.actualRentalStartTime),
      Pick(o.intendedDuration, k.intendedDuration), Pick(o.intendedPrice, k.intendedPrice))
  }

  /** A kart written out with every one of its fields. */
  function Image(k: Kart): Overlay
  {
    Overlay(
      Some(k.id), Some(k.display), Some(k.category), Some(k.price30), Some(k.price1h),
      Some(k.status), Some(k.rentalEndTime), Some(k.stopwatchStartTime),
      Some(k.actualRentalStartTime), Some(k.intendedDuration), Some(k.intendedPrice))
  }

  /** What `saveState()` stores: `JSON.stringify(karts)`. */
  function SaveImage(karts: map<string, Kart>): (s: Saved)
    ensures s.JsonObject? && s.entries.Keys == karts.Keys
  {
    JsonObject(map id | id in karts :: Some(Image(karts[id])))
  }

  /** The value of one catalog kart after the merge loop of loadState. */
  function Merged(d: Kart, entries: map<string, Option<Overlay>>, id: string): Kart
  {
    if id in entries && entries[id].Some? then Assign(d, entries[id].value) else d
  }

  /** `for (kartId in karts) if (parsedState[kartId]) Object.assign(...)`:
      only ids already in the catalog are visited. */
  function Overlaid(defaults: map<string, Kart>, entries: map<string, Option<Overlay>>): (r: map<string, Kart>)
    ensures r.Keys == defaults.Keys
  {
    map id | id in defaults :: Merged(defaults[id], entries, id)
  }

  /** The outcome of loadState: the karts, and whether it called
      `initializeKartData(true)`, which saves the defaults. Reading a
      property of `null` throws inside the try block (only once the loop
      visits a first id), and the catch re-initialises. */
  datatype Loaded = Loaded(karts: map<string, Kart>, reinitialised: bool)

  function Reconcile(defaults: map<string, Kart>, saved: Slot<Saved>): (r: Loaded)
    ensures r.karts.Keys == defaults.Keys
    ensures r.reinitialised ==> r.karts == defaults
    ensures !saved.Stored? ==> r.reinitialised
  {
    match saved
    case Absent => Loaded(defaults, true)
    case Corrupt => Loaded(defaults, true)
    case Stored(JsonNull) => Loaded(defaults, |defaults| > 0)
    case Stored(NotAnObject) => Loaded(defaults, false)
    case Stored(JsonObject(entries)) => Loaded(Overlaid(defaults, entries), false)
  }

  /** Reconciliation never adds or drops a catalog id: ids saved but no
      longer in the catalog are ignored. */
  lemma ReconcileKeys(defaults: map<string, Kart>, saved: Slot<Saved>)
    ensures Reconcile(defaults, saved).karts.Keys == defaults.Keys
  {
  }

  /** A catalog id the saved object does not carry (or carries as a falsy
      value) keeps its default record; one it carries gets every saved
      field, static ones such as price30 included. */
  lemma ReconcileEntry(defaults: map<string, Kart>, entries: map<string, Option<Overlay>>, id: string)
    requires id in defaults
    ensures var r := Reconcile(defaults, Stored(JsonObject(entries)));
      && !r.reinitialised
      && id in r.karts
      && (id !in entries || entries[id].None? ==> r.karts[id] == defaults[id])
      && (id in entries && entries[id].Some? ==> r.karts[id] == Assign(defaults[id], entries[id].value))
  {
  }

  /** Nothing stored, or text JSON.parse rejects: the fresh defaults, saved. */
  lemma ReconcileFresh(defaults: map<string, Kart>, saved: Slot<Saved>)
    requires saved.Absent? || saved.Corrupt?
    ensures Reconcile(defaults, saved) == Loaded(defaults, true)
  {
  }

  /** Writing every field back over a kart gives the kart saved. */
  lemma AssignImage(d: Kart, k: Kart)
    ensures Assign(d, Image(k)) == k
  {
  }

  /** Save then load: a state over the catalog's ids comes back unchanged. */
  lemma SaveLoadRoundTrip(defaults: map<string, Kart>, karts: map<string, Kart>)
    requires karts.Keys == defaults.Keys
    ensures Reconcile(defaults, Stored(SaveImage(karts))) == Loaded(karts, false)
  {
    var r := Overlaid(defaults, SaveImage(karts).entries);
    forall id | id in r
      ensures r[id] == karts[id]
    {
      AssignImage(defaults[id], karts[id]);
    }
  }

  // ---------------------------------------------------------------------
  // The session fields and their invariant

  /** The shape each status gives the session fields, as the transitions
      below write them. */
  predicate Shaped(k: Kart)
  {
    match k.status
    case Available => Idle(k)
    case Rented | PendingReturn =>
      && k.rentalEndTime.Some? && k.stopwatchStartTime.None?
      && k.actualRentalStartTime.Some? && k.intendedDuration.Some? && k.intendedPrice.Some?
    case Overdue =>
      && k.rentalEndTime.None? && k.stopwatchStartTime.Some?
      && k.actualRentalStartTime.Some? && k.intendedDuration.Some? && k.intendedPrice.Some?
  }

  /** The two invariants the code keeps: an available kart has every
      session field null, and the countdown end and the stopwatch start are
      never both set. */
  predicate SessionInvariant(k: Kart)
  {
    && (k.status == Available ==> Idle(k))
    && !(k.rentalEndTime.Some? && k.stopwatchStartTime.Some?)
  }

  lemma ShapedKeepsInvariant(k: Kart)
    requires Shaped(k)
    ensures SessionInvariant(k)
  {
  }

  // ---------------------------------------------------------------------
  // Transitions of one kart

  /** startRental (script.js:360-374), durations in milliseconds. A kart
      that is not available is left as it is. */
  function StartKart(k: Kart, now: int, duration: int, price: int): (r: Kart)
    ensures k.status != Available ==> r == k
    ensures k.status == Available ==>
      && r.status == Rented
      && r.actualRentalStartTime == Some(now)
      && r.rentalEndTime == Some(now + duration)
      && r.stopwatchStartTime == None
      && r.intendedDuration == Some(duration)
      && r.intendedPrice == Some(price)
      && r.id == k.id && r.display == k.display && r.category == k.category
      && r.price30 == k.price30 && r.price1h == k.price1h
  {
    if k.status != Available then k
    else k.(status := Rented, actualRentalStartTime := Some(now), rentalEndTime := Some(now + duration),
            stopwatchStartTime := None, intendedDuration := Some(duration), intendedPrice := Some(price))
  }

  /** The condition under which tick moves a kart (script.js:488-489). */
  predicate Expires(k: Kart, now: int)
  {
    k.status == Rented && k.rentalEndTime.Some? && now >= k.rentalEndTime.value
  }

  /** One kart's part of tick: an expired rental awaits confirmation. */
  function TickKart(k: Kart, now: int): (r: Kart)
    ensures Expires(k, now) ==> r == k.(status := PendingReturn)
    ensures !Expires(k, now) ==> r == k
  {
    if Expires(k, now) then k.(status := PendingReturn) else k
  }

  /** The answer "no" to the return prompt (script.js:389-391): the
      stopwatch runs from the moment of the answer. */
  function ReturnNo(k: Kart, now: int): (r: Kart)
    ensures r.status == Overdue && r.stopwatchStartTime == Some(now) && r.rentalEndTime == None
    ensures r.(status := k.status, stopwatchStartTime := k.stopwatchStartTime, rentalEndTime := k.rentalEndTime) == k
  {
    k.(status := Overdue, stopwatchStartTime := Some(now), rentalEndTime := None)
  }

  /** The field reset at the end of resetKart (script.js:408-413). */
  function ResetFields(k: Kart): (r: Kart)
    ensures Idle(r)
    ensures r.id == k.id && r.display == k.display && r.category == k.category
    ensures r.price30 == k.price30 && r.price1h == k.price1h
  {
    k.(status := Available, rentalEndTime := None, stopwatchStartTime := None,
       actualRentalStartTime := None, intendedDuration := None, intendedPrice := None)
  }

  /** Every transition keeps a kart well shaped. */
  lemma TransitionsKeepShape(k: Kart, now: int, duration: int, price: int)
    requires Shaped(k)
    ensures Shaped(StartKart(k, now, duration, price))
    ensures Shaped(TickKart(k, now))
    ensures k.status == PendingReturn ==> Shaped(ReturnNo(k, now))
    ensures Shaped(ResetFields(k))
  {
  }

  /** tick is idempotent: a second tick at the same instant moves nothing,
      and an overdue or pending kart is never moved. */
  lemma TickKartIdempotent(k: Kart, now: int)
    ensures TickKart(TickKart(k, now), now) == TickKart(k, now)
    ensures k.status != Rented ==> TickKart(k, now) == k
  {
  }

  /** What one tick does to the whole `karts` object. */
  function TickAll(m: map<string, Kart>, now: int): (r: map<string, Kart>)
    ensures r.Keys == m.Keys
  {
    map id | id in m :: TickKart(m[id], now)
  }

  /** tick moves exactly the expired rentals, to pending_return, and a
      second tick at the same instant changes nothing. */
  lemma TickAllMoves(m: map<string, Kart>, now: int)
    ensures forall id :: id in m ==>
      (TickAll(m, now)[id] != m[id] <==> Expires(m[id], now)) &&
      (Expires(m[id], now) ==> TickAll(m, now)[id].status == PendingReturn)
    ensures TickAll(TickAll(m, now), now) == TickAll(m, now)
  {
  }

  /** tick keeps every kart well shaped. */
  lemma TickAllShaped(m: map<string, Kart>, now: int)
    ensures (forall id :: id in m ==> Shaped(m[id])) ==>
      forall id :: id in TickAll(m, now) ==> Shaped(TickAll(m, now)[id])
  {
  }

  /** tick changes the state (and so saves) exactly when some rental has
      expired. */
  lemma {:induction false} TickAllChanges(m: map<string, Kart>, now: int)
    ensures TickAll(m, now) != m <==> exists id :: id in m && Expires(m[id], now)
  {
    var r := TickAll(m, now);
    if r != m {
      var id :| id in m && r[id] != m[id];
      assert Expires(m[id], now);
    }
    if exists id :: id in m && Expires(m[id], now) {
      var id :| id in m && Expires(m[id], now);
      assert r[id].status != m[id].status;
    }
  }

  // ---------------------------------------------------------------------
  // Billing (script.js:258-280)

  /** Which of the four messages the elapsed-time popup shows. */
  datatype BillKind = EarlyReturn | OverdueReturn(overdueMinutes: int) | PeriodExpired | Finished

  /** The message kind, the duration to log and the price to log. */
  datatype Bill = Bill(kind: BillKind, duration: Option<int>, price: Option<int>)

  const MinuteMs := 60000

  /** showElapsedTimeAndReset's computation; `now` is Date.now(). null
      coerces to 0 in `intendedDuration + overdueMinutes` and in
      `Date.now() >= rentalEndTime`. */
  function BillFor(k: Kart, now: int): (b: Bill)
    ensures b.price == k.intendedPrice
    ensures b.kind.EarlyReturn? <==> k.status == Rented && Truthy(k.actualRentalStartTime)
    ensures b.kind.OverdueReturn? <==>
      k.status == Overdue && Truthy(k.actualRentalStartTime) && Truthy(k.stopwatchStartTime)
    ensures !b.kind.EarlyReturn? && !b.kind.OverdueReturn? ==> b.duration == k.intendedDuration
    ensures k.status == PendingReturn ==> b.kind == PeriodExpired
  {
    if k.status == Rented && Truthy(k.actualRentalStartTime) then
      Bill(EarlyReturn, Some(MinuteMs * Max(1, RoundDiv(now - k.actualRentalStartTime.value, MinuteMs))), k.intendedPrice)
    else if k.status == Overdue && Truthy(k.actualRentalStartTime) && Truthy(k.stopwatchStartTime) then
      var m := RoundDiv(now - k.stopwatchStartTime.value, MinuteMs);
      Bill(OverdueReturn(m), Some(NumOf(k.intendedDuration) + MinuteMs * m), k.intendedPrice)
    else if k.status == PendingReturn || (k.status == Rented && now >= NumOf(k.rentalEndTime)) then
      Bill(PeriodExpired, k.intendedDuration, k.intendedPrice)
    else
      Bill(Finished, k.intendedDuration, k.intendedPrice)
  }

  /** An early return bills the elapsed time to the nearest whole minute,
      at least one minute, even when the end time has already passed. */
  lemma {:induction false} EarlyBill(k: Kart, now: int)
    requires k.status == Rented && Truthy(k.actualRentalStartTime)
    ensures var b := BillFor(k, now); var elapsed := now - k.actualRentalStartTime.value;
      && b.duration.Some? && b.duration.value % MinuteMs == 0
      && b.duration.value >= MinuteMs
      && (b.duration.value > MinuteMs ==>
            b.duration.value - MinuteMs / 2 <= elapsed < b.duration.value + MinuteMs / 2)
      && (elapsed >= MinuteMs ==>
            b.duration.value - MinuteMs / 2 <= elapsed < b.duration.value + MinuteMs / 2)
  {
    var elapsed := now - k.actualRentalStartTime.value;
    var m := RoundDiv(elapsed, MinuteMs);
    assert 2 * MinuteMs * m <= 2 * elapsed + MinuteMs < 2 * MinuteMs * (m + 1);
    if elapsed >= MinuteMs {
      assert m >= 1;
    }
  }

  /** An overdue return bills the intended duration plus the stopwatch time
      to the nearest whole minute. */
  lemma OverdueBill(k: Kart, now: int)
    requires k.status == Overdue && Truthy(k.actualRentalStartTime) && Truthy(k.stopwatchStartTime)
    ensures var b := BillFor(k, now); var extra := now - k.stopwatchStartTime.value;
      && b.kind.OverdueReturn?
      && b.duration == Some(NumOf(k.intendedDuration) + MinuteMs * b.kind.overdueMinutes)
      && MinuteMs * b.kind.overdueMinutes - MinuteMs / 2 <= extra < MinuteMs * b.kind.overdueMinutes + MinuteMs / 2
  {
    var extra := now - k.stopwatchStartTime.value;
    var m := RoundDiv(extra, MinuteMs);
    assert 2 * MinuteMs * m <= 2 * extra + MinuteMs < 2 * MinuteMs * (m + 1);
  }

  // ---------------------------------------------------------------------
  // The history entry (script.js:35-53, 398-407)

  /** `if (durationToLog > 0)`: null compares as 0. */
  predicate ShouldAppend(shouldLog: bool, duration: Option<int>)
  {
    shouldLog && duration.Some? && duration.value > 0
  }

  /** The entry logRentalToHistory pushes: the session's start if it has a
      truthy one, otherwise the logged duration back from now. */
  function LogEntry(k: Kart, duration: int, price: Option<int>, now: int): (e: Entry)
    ensures e.kartUniqueId == k.id && e.display == k.display && e.kartCategory == k.category
    ensures e.rentalEndTime == now && e.durationMs == duration && e.pricePaid == price
    ensures Truthy(k.actualRentalStartTime) ==> e.rentalStartTime == k.actualRentalStartTime.value
    ensures !Truthy(k.actualRentalStartTime) ==> e.rentalEndTime - e.rentalStartTime == duration
  {
    Entry(k.id, k.display, k.category,
          if Truthy(k.actualRentalStartTime) then k.actualRentalStartTime.value else now - duration,
          now, duration, price)
  }

  /** A logged session counts once more in its category's statistics for
      every period it ends in, and not in any other category. */
  lemma {:induction false} LoggedSessionCounts(h: seq<Entry>, k: Kart, duration: int, price: Option<int>,
                                                now: int, cutoff: int, cat: string)
    ensures var e := LogEntry(k, duration, price, now);
      CountIn(h + [e], cutoff, cat) ==
        CountIn(h, cutoff, cat) + (if now >= cutoff && cat == k.category then 1 else 0)
  {
    var e := LogEntry(k, duration, price, now);
    assert (h + [e])[..|h + [e]| - 1] == h;
  }

  // ---------------------------------------------------------------------
  // formatTime (script.js:419-425)

  /** `MM:SS` of a positive number of milliseconds, rounded up to a whole
      second; "00:00" for anything else. */
  function FormatTime(ms: int): (r: string)
    ensures ms <= 0 ==> r == "00:00"
  {
    if ms <= 0 then "00:00"
    else
      var total := CeilDiv(ms, 1000);
      PadStart2(NatToString(total / 60)) + ":" + PadStart2(NatToString(total % 60))
  }

  /** Reading the two fields of formatTime back: at least two minute
      digits, exactly two second digits below 60, and together the whole
      seconds that cover ms. */
  lemma FormatTimeFields(ms: int)
    requires ms > 0
    ensures var r := FormatTime(ms); var s := CeilDiv(ms, 1000);
      && |r| >= 5 && r[|r| - 3] == ':'
      && AllDigits(r[..|r| - 3]) && AllDigits(r[|r| - 2..])
      && DigitsValue(r[..|r| - 3]) * 60 + DigitsValue(r[|r| - 2..]) == s
      && DigitsValue(r[|r| - 2..]) < 60
      && (s - 1) * 1000 < ms <= s * 1000
  {
    var s := CeilDiv(ms, 1000);
    var m, sec := s / 60, s % 60;
    var mm, ss := PadStart2(NatToString(m)), PadStart2(NatToString(sec));
    PaddedValue(m);
    PaddedValue(sec);
    PaddedWidth(sec);
    MinutesReadBack(mm, ss, m, sec);
    SplitMinutes(s);
    assert FormatTime(ms) == mm + ":" + ss;
  }
}
