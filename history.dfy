/**
 * The rental history ledger and the history page (history_script.js):
 * loading the ledger from its storage key, per-category statistics for a
 * period, the descending ordering of those statistics, the "latest 50,
 * newest first" detailed log, and clear-all.
 */
module History {
  import opened JsBasics

  /** One completed session, as logRentalToHistory in script.js writes it.
      durationMs is the logged `durationMinutes` times 60000. */
  datatype Entry = Entry(
    kartUniqueId: string,
    display: string,
    kartCategory: string,
    rentalStartTime: int,
    rentalEndTime: int,
    durationMs: int,
    pricePaid: Option<int>)

  /** `getRentalHistory()`: an absent (or empty) item is the empty ledger; text
      that JSON.parse rejects throws, which is `None` here. script.js has the
      same function over the same key. */
  function GetRentalHistory(slot: Slot<seq<Entry>>): (r: Option<seq<Entry>>)
    ensures r.None? <==> slot.Corrupt?
    ensures slot.Absent? ==> r == Some([])
    ensures slot.Stored? ==> r == Some(slot.value)
  {
    match slot
    case Absent => Some([])
    case Stored(h) => Some(h)
    case Corrupt => None
  }

  // ---------------------------------------------------------------------
  // Statistics per category

  /** The entries that finished at or after the cutoff. */
  function InPeriod(h: seq<Entry>, cutoff: int): (r: seq<Entry>)
    ensures |r| <= |h|
    ensures multiset(r) <= multiset(h)
    ensures forall e :: e in r <==> e in h && e.rentalEndTime >= cutoff
    ensures forall e :: multiset(r)[e] == if e.rentalEndTime >= cutoff then multiset(h)[e] else 0
  {
    if h == [] then []
    else
      var e := h[|h| - 1];
      assert h == h[..|h| - 1] + [e];
      InPeriod(h[..|h| - 1], cutoff) + (if e.rentalEndTime >= cutoff then [e] else [])
  }

  /** How many entries of category `cat` finished at or after the cutoff. */
  function CountIn(h: seq<Entry>, cutoff: int, cat: string): nat
  {
    if h == [] then 0
    else
      var e := h[|h| - 1];
      CountIn(h[..|h| - 1], cutoff, cat) + (if e.rentalEndTime >= cutoff && e.kartCategory == cat then 1 else 0)
  }

  /** `stats[c] = (stats[c] || 0) + 1` */
  function Bump(m: map<string, nat>, c: string): (r: map<string, nat>)
    ensures r.Keys == m.Keys + {c}
  {
    m[c := (if c in m then m[c] else 0) + 1]
  }

  /** The dictionary that calculateStatistics builds, entry by entry. */
  function StatsOf(h: seq<Entry>, cutoff: int): map<string, nat>
  {
    if h == [] then map[]
    else
      var s := StatsOf(h[..|h| - 1], cutoff);
      var e := h[|h| - 1];
      if e.rentalEndTime >= cutoff then Bump(s, e.kartCategory) else s
  }

  /** `calculateStatistics(history, daysAgo)` with its cutoff already computed.
      The loop is the source's forEach. */
  method CalculateStatistics(history: seq<Entry>, cutoff: int) returns (stats: map<string, nat>)
    ensures stats == StatsOf(history, cutoff)
  {
    stats := map[];
    var i := 0;
    while i < |history|
      invariant 0 <= i <= |history|
      invariant stats == StatsOf(history[..i], cutoff)
    {
      var rental := history[i];
      StatsStep(history, cutoff, i);
      if rental.rentalEndTime >= cutoff {
        stats := stats[rental.kartCategory := (if rental.kartCategory in stats then stats[rental.kartCategory] else 0) + 1];
      }
      i := i + 1;
    }
    assert history[..i] == history;
  }

  lemma StatsStep(h: seq<Entry>, cutoff: int, i: nat)
    requires i < |h|
    ensures StatsOf(h[..i + 1], cutoff)
         == if h[i].rentalEndTime >= cutoff then Bump(StatsOf(h[..i], cutoff), h[i].kartCategory) else StatsOf(h[..i], cutoff)
  {
    assert h[..i + 1][..i] == h[..i];
  }

  /** A category is a key exactly when it has at least one entry in the
      period, and its value is that number of entries. */
  lemma {:induction false} StatsCounts(h: seq<Entry>, cutoff: int, cat: string)
    ensures cat in StatsOf(h, cutoff) <==> CountIn(h, cutoff, cat) >= 1
    ensures cat in StatsOf(h, cutoff) ==> StatsOf(h, cutoff)[cat] == CountIn(h, cutoff, cat)
  {
    if h != [] {
      StatsCounts(h[..|h| - 1], cutoff, cat);
    }
  }

  /** The keys are the categories of the entries in the period. */
  lemma {:induction false} StatsKeys(h: seq<Entry>, cutoff: int)
    ensures StatsOf(h, cutoff).Keys == set e | e in InPeriod(h, cutoff) :: e.kartCategory
  {
    if h != [] {
      StatsKeys(h[..|h| - 1], cutoff);
    }
  }

  /** Every value in the statistics is at least one. */
  lemma StatsPositive(h: seq<Entry>, cutoff: int)
    ensures forall cat :: cat in StatsOf(h, cutoff) ==> StatsOf(h, cutoff)[cat] >= 1
  {
    forall cat | cat in StatsOf(h, cutoff)
      ensures StatsOf(h, cutoff)[cat] >= 1
    {
      StatsCounts(h, cutoff, cat);
    }
  }

  /** The sum of a dictionary's counts. */
  ghost function Total(m: map<string, nat>): nat
    decreases |m|
  {
    if m == map[] then 0
    else
      var k :| k in m;
      m[k] + Total(m - {k})
  }

  /** The sum does not depend on which key is taken out first. */
  lemma {:induction false} TotalRemove(m: map<string, nat>, k: string)
    requires k in m
    ensures Total(m) == m[k] + Total(m - {k})
    decreases |m|
  {
    var j :| j in m && Total(m) == m[j] + Total(m - {j});
    if j != k {
      var mj := m - {j};
      var mk := m - {k};
      assert |mj| < |m| && |mk| < |m|;
      TotalRemove(mj, k);
      TotalRemove(mk, j);
      assert mj - {k} == mk - {j};
    }
  }

  lemma TotalBump(m: map<string, nat>, c: string)
    ensures Total(Bump(m, c)) == Total(m) + 1
  {
    var b := Bump(m, c);
    TotalRemove(b, c);
    assert b - {c} == m - {c};
    if c in m {
      TotalRemove(m, c);
    } else {
      assert m - {c} == m;
    }
  }

  /** The counts, summed over all categories, are the number of entries in
      the period. */
  lemma {:induction false} StatsTotal(h: seq<Entry>, cutoff: int)
    ensures Total(StatsOf(h, cutoff)) == |InPeriod(h, cutoff)|
  {
    if h != [] {
      StatsTotal(h[..|h| - 1], cutoff);
      var e := h[|h| - 1];
      if e.rentalEndTime >= cutoff {
        TotalBump(StatsOf(h[..|h| - 1], cutoff), e.kartCategory);
      }
    }
  }

  /** An earlier cutoff (a longer period) never lowers a category's count. */
  lemma {:induction false} CountMonotone(h: seq<Entry>, earlier: int, later: int, cat: string)
    requires earlier <= later
    ensures CountIn(h, later, cat) <= CountIn(h, earlier, cat)
  {
    if h != [] {
      CountMonotone(h[..|h| - 1], earlier, later, cat);
    }
  }

  /** The same, stated on the dictionaries: every category of the shorter
      period appears in the longer one with at least the same count. */
  lemma StatsMonotone(h: seq<Entry>, earlier: int, later: int)
    requires earlier <= later
    ensures forall cat :: cat in StatsOf(h, later) ==>
      cat in StatsOf(h, earlier) && StatsOf(h, later)[cat] <= StatsOf(h, earlier)[cat]
  {
    forall cat | cat in StatsOf(h, later)
      ensures cat in StatsOf(h, earlier) && StatsOf(h, later)[cat] <= StatsOf(h, earlier)[cat]
    {
      StatsCounts(h, later, cat);
      StatsCounts(h, earlier, cat);
      CountMonotone(h, earlier, later, cat);
    }
  }

  // ---------------------------------------------------------------------
  // Ordering of the statistics

  predicate SortedDesc(s: seq<(string, nat)>)
  {
    forall i, j :: 0 <= i < j < |s| ==> s[i].1 >= s[j].1
  }

  /** Inserts x after every element whose count is at least x's; the elements
      already there keep their order. */
  function InsertDesc(s: seq<(string, nat)>, x: (string, nat)): (r: seq<(string, nat)>)
    requires SortedDesc(s)
    ensures SortedDesc(r)
    ensures multiset(r) == multiset(s) + multiset{x}
  {
    if s == [] || s[|s| - 1].1 >= x.1 then s + [x]
    else
      var last, pre := s[|s| - 1], s[..|s| - 1];
      var front := InsertDesc(pre, x);
      assert s == pre + [last];
      InsertBeforeLast(pre, last, x, front);
      front + [last]
  }

  /** Putting `last` back after an insertion into the rest keeps the order,
      when it had to go behind x. */
  lemma InsertBeforeLast(pre: seq<(string, nat)>, last: (string, nat), x: (string, nat), front: seq<(string, nat)>)
    requires SortedDesc(pre + [last]) && SortedDesc(front)
    requires multiset(front) == multiset(pre) + multiset{x} && x.1 > last.1
    ensures SortedDesc(front + [last])
  {
    var s := pre + [last];
    forall i | 0 <= i < |front|
      ensures front[i].1 >= last.1
    {
      assert front[i] in multiset(front);
      if front[i] in multiset(pre) {
        var k :| 0 <= k < |pre| && pre[k] == front[i];
        assert s[k] == pre[k] && s[|pre|] == last;
      }
    }
    var r := front + [last];
    forall i, j | 0 <= i < j < |r|
      ensures r[i].1 >= r[j].1
    {
      assert r[i] == front[i];
      if j < |front| {
        assert r[j] == front[j];
      }
    }
  }

  /** `Object.entries(stats).sort(([, a], [, b]) => b - a)`: a stable sort by
      count, largest first. */
  function SortDesc(s: seq<(string, nat)>): (r: seq<(string, nat)>)
    ensures SortedDesc(r)
    ensures multiset(r) == multiset(s)
  {
    if s == [] then []
    else
      assert s == s[..|s| - 1] + [s[|s| - 1]];
      InsertDesc(SortDesc(s[..|s| - 1]), s[|s| - 1])
  }

  /** What a statistics list shows: the single "no rentals" line, or rows. */
  datatype StatsView = NoRentals | Rows(rows: seq<(string, nat)>)

  /** `order` is the key order of Object.entries: every key exactly once. */
  predicate EnumeratesKeys(stats: map<string, nat>, order: seq<string>)
  {
    && (forall i :: 0 <= i < |order| ==> order[i] in stats)
    && (forall i, j :: 0 <= i < j < |order| ==> order[i] != order[j])
    && (forall k :: k in stats ==> k in order)
  }

  /** The ordering part of `displayStatistics`. */
  function DisplayStatistics(stats: map<string, nat>, order: seq<string>): (r: StatsView)
    requires EnumeratesKeys(stats, order)
    ensures r.NoRentals? <==> |stats| == 0
    ensures r.Rows? ==> SortedDesc(r.rows) && |r.rows| == |order|
    ensures r.Rows? ==> forall i :: 0 <= i < |r.rows| ==> r.rows[i].0 in stats && r.rows[i].1 == stats[r.rows[i].0]
    ensures r.Rows? ==> forall k :: k in stats ==> (k, stats[k]) in r.rows
  {
    if |stats| == 0 then NoRentals
    else
      var entries := seq(|order|, i requires 0 <= i < |order| => (order[i], stats[order[i]]));
      var rows := SortDesc(entries);
      assert |rows| == |multiset(rows)| == |multiset(entries)| == |entries|;
      forall i | 0 <= i < |rows|
        ensures rows[i].0 in stats && rows[i].1 == stats[rows[i].0]
      {
        assert rows[i] in multiset(entries);
      }
      forall k | k in stats
        ensures (k, stats[k]) in rows
      {
        var i :| 0 <= i < |order| && order[i] == k;
        assert entries[i] == (k, stats[k]);
        assert (k, stats[k]) in multiset(rows);
      }
      Rows(rows)
  }

  // ---------------------------------------------------------------------
  // Detailed log

  const DetailLimit: nat := 50

  function Reverse(s: seq<Entry>): (r: seq<Entry>)
    ensures |r| == |s|
  {
    if s == [] then [] else [s[|s| - 1]] + Reverse(s[..|s| - 1])
  }

  lemma {:induction false} ReverseAt(s: seq<Entry>, k: nat)
    requires k < |s|
    ensures Reverse(s)[k] == s[|s| - 1 - k]
  {
    if k > 0 {
      ReverseAt(s[..|s| - 1], k - 1);
    }
  }

  /** The text fields of an entry under their JSON keys; any other key reads
      as `undefined` (None). */
  function EntryText(e: Entry, key: string): Option<string>
  {
    if key == "kartUniqueId" then Some(e.kartUniqueId)
    else if key == "display" then Some(e.display)
    else if key == "kartCategory" then Some(e.kartCategory)
    else None
  }

  /** A text field interpolated into a template literal. */
  function TemplateText(o: Option<string>): string
  {
    if o.Some? then o.value else "undefined"
  }

  /** The kart label of a detail line as history_script.js writes it: it reads
      the key `kartDisplay`, which no entry has. */
  function DetailLabelAsWritten(e: Entry): string
  {
    TemplateText(EntryText(e, "kartDisplay"))
  }

  /** Every detail line of the source labels its kart "undefined". */
  lemma DetailLabelAsWrittenIsUndefined(e: Entry)
    ensures DetailLabelAsWritten(e) == "undefined"
  {
  }

  /** The label read from the key that logRentalToHistory writes. */
  function DetailLabel(e: Entry): (r: string)
    ensures r == e.display
  {
    TemplateText(EntryText(e, "display"))
  }

  /** One line of the detailed log. */
  datatype LogLine = LogLine(kart: string, category: string, durationMs: int, price: Option<int>, finishedAt: int)

  function DetailLine(e: Entry): LogLine
  {
    LogLine(DetailLabel(e), e.kartCategory, e.durationMs, e.pricePaid, e.rentalEndTime)
  }

  datatype LogView = NoHistory | Recent(lines: seq<LogLine>)

  /** `displayDetailedLog`: `history.slice().reverse().slice(0, 50)`, newest
      first. `history` is a value, so the stored ledger is left as it was. */
  function DisplayDetailedLog(history: seq<Entry>): (r: LogView)
    ensures r.NoHistory? <==> |history| == 0
    ensures r.Recent? ==> |r.lines| == Min(DetailLimit, |history|)
    ensures r.Recent? ==> forall k :: 0 <= k < |r.lines| ==>
      r.lines[k] == DetailLine(history[|history| - 1 - k])
  {
    if |history| == 0 then NoHistory
    else
      var recent := Reverse(history)[..Min(DetailLimit, |history|)];
      forall k | 0 <= k < |recent|
        ensures recent[k] == history[|history| - 1 - k]
      {
        ReverseAt(history, k);
      }
      Recent(seq(|recent|, k requires 0 <= k < |recent| => DetailLine(recent[k])))
  }

  /** The entry appended last is the first line of the log. */
  lemma NewestFirst(history: seq<Entry>, e: Entry)
    ensures DisplayDetailedLog(history + [e]).Recent?
    ensures DisplayDetailedLog(history + [e]).lines[0] == DetailLine(e)
  {
  }

  // ---------------------------------------------------------------------
  // The history page

  /** The three statistics periods and the log, as loadAndDisplayAllHistory
      computes them. */
  datatype Page = Page(week: map<string, nat>, month: map<string, nat>, year: map<string, nat>, log: LogView)

  /** Lemma-level view of the page for a ledger. */
  function PageOf(h: seq<Entry>, weekCutoff: int, monthCutoff: int, yearCutoff: int): Page
  {
    Page(StatsOf(h, weekCutoff), StatsOf(h, monthCutoff), StatsOf(h, yearCutoff), DisplayDetailedLog(h))
  }

  /** The page's view of the history key in localStorage. */
  class HistoryPage {
    var stored: Slot<seq<Entry>>

    constructor (stored: Slot<seq<Entry>>)
      ensures this.stored == stored
    {
      this.stored := stored;
    }

    /** `loadAndDisplayAllHistory`: the cutoffs for 7, 30 and 365 days back are
        inputs; a corrupt ledger throws (None). */
    method LoadAndDisplayAllHistory(weekCutoff: int, monthCutoff: int, yearCutoff: int) returns (page: Option<Page>)
      ensures page.None? <==> stored.Corrupt?
      ensures page.Some? ==> page.value == PageOf(GetRentalHistory(stored).value, weekCutoff, monthCutoff, yearCutoff)
    {
      var history := GetRentalHistory(stored);
      if history.None? {
        return None;
      }
      var week := CalculateStatistics(history.value, weekCutoff);
      var month := CalculateStatistics(history.value, monthCutoff);
      var year := CalculateStatistics(history.value, yearCutoff);
      page := Some(Page(week, month, year, DisplayDetailedLog(history.value)));
    }

    /** The "yes" button of the delete popup: removes the key and reloads,
        which then shows an empty page. */
    method ClearAll(weekCutoff: int, monthCutoff: int, yearCutoff: int) returns (page: Option<Page>)
      modifies this
      ensures stored == Absent
      ensures page == Some(Page(map[], map[], map[], NoHistory))
    {
      stored := Absent;
      page := LoadAndDisplayAllHistory(weekCutoff, monthCutoff, yearCutoff);
    }
  }
}
