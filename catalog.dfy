/**
 * The kart catalog of script.js: the category table, the record every kart
 * starts from, the id slugs, the "name ×N" multiplicity marker, and
 * initializeKartData, which expands the table into the map of karts.
 */
module Catalog {
  import opened JsBasics

  /** The four states of a kart in script.js. */
  datatype Status = Available | Rented | PendingReturn | Overdue

  /** One kart record of the `karts` object. Times are epoch milliseconds;
      intendedDuration is the chosen duration in milliseconds (the source
      keeps minutes, possibly 0.5). */
  datatype Kart = Kart(
    id: string,
    display: string,
    category: string,
    price30: int,
    price1h: int,
    status: Status,
    rentalEndTime: Option<int>,
    stopwatchStartTime: Option<int>,
    actualRentalStartTime: Option<int>,
    intendedDuration: Option<int>,
    intendedPrice: Option<int>)

  /** One row of `kartData`. */
  datatype Category = Category(category: string, idents: seq<string>, price30: int, price1h: int)

  /** The catalog as script.js defines it. */
  const KartData: seq<Category> := [
    Category("Basic Karts", ["fara numar ×5", "00 ×1", "1", "2", "4", "5", "6", "8", "9", "10", "11", "12", "06"], 20, 30),
    Category("New Steering Wheel – Large Karts", ["42", "43", "55", "52", "47", "24", "26", "15", "25", "44", "13", "46"], 25, 40),
    Category("Old Steering Wheel – Large Karts", ["27", "58", "17", "19", "18", "56", "23", "22", "20", "57", "21", "14", "60", "81", "59", "16"], 25, 40),
    Category("Horn-Style Steering – Large Karts", ["33", "39", "30", "34", "38", "36", "37", "35", "31", "32"], 25, 40),
    Category("Two-Seater with Attachment", ["64", "68", "70", "61", "66", "65", "67", "63", "69", "62", "71", "72", "51", "48"], 35, 50),
    Category("Two-Seater, Two-Pedal Karts", ["77", "76", "78"], 50, 70),
    Category("Grand Tour (4-Seater)", ["73", "74"], 50, 70),
    Category("Sirenetta (3-Seater)", ["Verde ×2", "Roșu ×1", "Albastru ×1", "Mov ×1"], 70, 100),
    Category("Delfino (6-Seater)", ["Verde ×1", "Mov ×1"], 90, 130)
  ]

  /** No session is open: the kart is available and every session field is null. */
  predicate Idle(k: Kart)
  {
    && k.status == Available
    && k.rentalEndTime.None?
    && k.stopwatchStartTime.None?
    && k.actualRentalStartTime.None?
    && k.intendedDuration.None?
    && k.intendedPrice.None?
  }

  /** The record initializeKartData writes for one kart. */
  function FreshKart(cat: Category, id: string, display: string): (k: Kart)
    ensures Idle(k)
    ensures k.id == id && k.display == display && k.category == cat.category
    ensures k.price30 == cat.price30 && k.price1h == cat.price1h
  {
    Kart(id, display, cat.category, cat.price30, cat.price1h, Available, None, None, None, None, None)
  }

  // ---------------------------------------------------------------------
  // Strings: \s, trim, the slug

  /** JavaScript's `\s` (and the characters `trim` removes). */
  predicate IsJsSpace(c: char)
  {
    || ('\t' <= c <= '\r') || c == ' ' || c == '\U{00A0}' || c == '\U{1680}'
    || ('\U{2000}' <= c <= '\U{200A}') || c == '\U{2028}' || c == '\U{2029}'
    || c == '\U{202F}' || c == '\U{205F}' || c == '\U{3000}' || c == '\U{FEFF}'
  }

  /** The characters `.` does not match in a regular expression. */
  predicate IsLineBreak(c: char)
  {
    c == '\n' || c == '\r' || c == '\U{2028}' || c == '\U{2029}'
  }

  predicate NoLineBreak(s: string)
  {
    forall i :: 0 <= i < |s| ==> !IsLineBreak(s[i])
  }

  function TrimStart(s: string): (r: string)
    ensures |r| <= |s| && r == s[|s| - |r|..]
    ensures r != [] ==> !IsJsSpace(r[0])
    ensures forall i :: 0 <= i < |s| - |r| ==> IsJsSpace(s[i])
  {
    if s != [] && IsJsSpace(s[0]) then TrimStart(s[1..]) else s
  }

  function TrimEnd(s: string): (r: string)
    ensures |r| <= |s| && r == s[..|r|]
    ensures r != [] ==> !IsJsSpace(r[|r| - 1])
    ensures forall i :: |r| <= i < |s| ==> IsJsSpace(s[i])
  {
    if s != [] && IsJsSpace(s[|s| - 1]) then TrimEnd(s[..|s| - 1]) else s
  }

  /** `String.prototype.trim`: no white space is left at either end, and a
      text with none is kept whole. */
  function Trim(s: string): (r: string)
    ensures r != [] ==> !IsJsSpace(r[0]) && !IsJsSpace(r[|r| - 1])
    ensures (forall i :: 0 <= i < |s| ==> !IsJsSpace(s[i])) ==> r == s
    ensures (forall i :: 0 <= i < |s| ==> IsJsSpace(s[i])) ==> r == []
  {
    TrimEnd(TrimStart(s))
  }

  /** Lower-cases the ASCII letters (the catalog's only upper-case letters). */
  function ToLower(s: string): (r: string)
    ensures |r| == |s|
    ensures forall i :: 0 <= i < |s| ==> r[i] == if 'A' <= s[i] <= 'Z' then (s[i] as int + 32) as char else s[i]
  {
    seq(|s|, i requires 0 <= i < |s| => if 'A' <= s[i] <= 'Z' then (s[i] as int + 32) as char else s[i])
  }

  /** `s.replace(/\s+/g, '-')`: each maximal run of whitespace becomes one hyphen. */
  function Hyphenate(s: string): (r: string)
    decreases |s|
  {
    if s == [] then []
    else if IsJsSpace(s[0]) then "-" + Hyphenate(TrimStart(s))
    else [s[0]] + Hyphenate(s[1..])
  }

  /** The slug used in ids: `s.replace(/\s+/g, '-').toLowerCase()`. It has
      no white space and no upper-case ASCII letter. */
  function Slug(s: string): (r: string)
    ensures forall i :: 0 <= i < |r| ==> !IsJsSpace(r[i]) && !('A' <= r[i] <= 'Z')
  {
    HyphenateNoSpace(s);
    ToLower(Hyphenate(s))
  }

  /** No white space is left after hyphenation. */
  lemma {:induction false} HyphenateNoSpace(s: string)
    ensures forall i :: 0 <= i < |Hyphenate(s)| ==> !IsJsSpace(Hyphenate(s)[i])
    decreases |s|
  {
    if s != [] {
      if IsJsSpace(s[0]) {
        HyphenateNoSpace(TrimStart(s));
      } else {
        HyphenateNoSpace(s[1..]);
      }
    }
  }

  /** Text without white space is kept as it is. */
  lemma {:induction false} HyphenateKeeps(s: string)
    requires forall i :: 0 <= i < |s| ==> !IsJsSpace(s[i])
    ensures Hyphenate(s) == s
    decreases |s|
  {
    if s != [] {
      HyphenateKeeps(s[1..]);
    }
  }

  /** `trimStart` of white space followed by text that starts with none. */
  lemma {:induction false} TrimStartSpaces(w: string, b: string)
    requires forall i :: 0 <= i < |w| ==> IsJsSpace(w[i])
    requires b == [] || !IsJsSpace(b[0])
    ensures TrimStart(w + b) == b
    decreases |w|
  {
    if w == [] {
      assert w + b == b;
    } else {
      assert (w + b)[1..] == w[1..] + b;
      TrimStartSpaces(w[1..], b);
    }
  }

  /** Leading white space of a text that ends in none is trimmed the same
      whatever follows. */
  lemma {:induction false} TrimStartAppend(a: string, t: string)
    requires a != [] && !IsJsSpace(a[|a| - 1])
    ensures TrimStart(a + t) == TrimStart(a) + t
    decreases |a|
  {
    if IsJsSpace(a[0]) {
      assert (a + t)[1..] == a[1..] + t;
      TrimStartAppend(a[1..], t);
    }
  }

  lemma HyphenateSpaceHead(s: string)
    requires s != [] && IsJsSpace(s[0])
    ensures Hyphenate(s) == "-" + Hyphenate(TrimStart(s))
  {
  }

  lemma HyphenateCharHead(s: string)
    requires s != [] && !IsJsSpace(s[0])
    ensures Hyphenate(s) == [s[0]] + Hyphenate(s[1..])
  {
  }

  lemma SplitHead(a: string, t: string)
    requires a != []
    ensures (a + t)[0] == a[0] && (a + t)[1..] == a[1..] + t
  {
  }

  lemma Assoc(x: string, y: string, z: string)
    ensures x + (y + z) == (x + y) + z
  {
  }

  /** Trimming the start of a text that ends in a non-space keeps that end. */
  lemma {:induction false} TrimStartLast(a: string)
    requires a != [] && !IsJsSpace(a[|a| - 1])
    ensures TrimStart(a) != [] && TrimStart(a)[|TrimStart(a)| - 1] == a[|a| - 1]
    decreases |a|
  {
    if IsJsSpace(a[0]) {
      assert |a| >= 2;
      TrimStartLast(a[1..]);
    }
  }

  /** Hyphenating a text that ends in a non-space, then what follows, is
      hyphenating both together. */
  lemma {:induction false} HyphenateAppend(a: string, t: string)
    requires a == [] || !IsJsSpace(a[|a| - 1])
    ensures Hyphenate(a + t) == Hyphenate(a) + Hyphenate(t)
    decreases |a|
  {
    if a == [] {
      assert a + t == t;
    } else if IsJsSpace(a[0]) {
      TrimStartLast(a);
      HyphenateAppend(TrimStart(a), t);
      AppendAfterSpace(a, t);
    } else {
      HyphenateAppend(a[1..], t);
      AppendAfterChar(a, t);
    }
  }

  lemma AppendAfterSpace(a: string, t: string)
    requires a != [] && IsJsSpace(a[0]) && !IsJsSpace(a[|a| - 1])
    requires Hyphenate(TrimStart(a) + t) == Hyphenate(TrimStart(a)) + Hyphenate(t)
    ensures Hyphenate(a + t) == Hyphenate(a) + Hyphenate(t)
  {
    TrimStartAppend(a, t);
    assert (a + t)[0] == a[0];
    HyphenateSpaceHead(a + t);
    HyphenateSpaceHead(a);
    Assoc("-", Hyphenate(TrimStart(a)), Hyphenate(t));
  }

  lemma AppendAfterChar(a: string, t: string)
    requires a != [] && !IsJsSpace(a[0])
    requires Hyphenate(a[1..] + t) == Hyphenate(a[1..]) + Hyphenate(t)
    ensures Hyphenate(a + t) == Hyphenate(a) + Hyphenate(t)
  {
    SplitHead(a, t);
    HyphenateCharHead(a + t);
    HyphenateCharHead(a);
    Assoc([a[0]], Hyphenate(a[1..]), Hyphenate(t));
  }

  /** A maximal run of white space becomes one hyphen, and the text on
      either side is hyphenated on its own. */
  lemma HyphenateRun(a: string, w: string, b: string)
    requires w != [] && forall i :: 0 <= i < |w| ==> IsJsSpace(w[i])
    requires a == [] || !IsJsSpace(a[|a| - 1])
    requires b == [] || !IsJsSpace(b[0])
    ensures Hyphenate(a + w + b) == Hyphenate(a) + "-" + Hyphenate(b)
  {
    Assoc(a, w, b);
    HyphenateAppend(a, w + b);
    RunAtStart(w, b);
    Assoc(Hyphenate(a), "-", Hyphenate(b));
  }

  lemma RunAtStart(w: string, b: string)
    requires w != [] && forall i :: 0 <= i < |w| ==> IsJsSpace(w[i])
    requires b == [] || !IsJsSpace(b[0])
    ensures Hyphenate(w + b) == "-" + Hyphenate(b)
  {
    TrimStartSpaces(w, b);
    HyphenateSpaceHead(w + b);
  }

  // ---------------------------------------------------------------------
  // The multiplicity marker /^(.*?) ×(\d+)$/

  /** The regular expression matches with group 1 = s[..i] and group 2 = s[i+2..]. */
  predicate MatchAt(s: string, i: int)
  {
    && 0 <= i && i + 3 <= |s|
    && s[i] == ' ' && s[i + 1] == '×'
    && AllDigits(s[i + 2..])
    && NoLineBreak(s[..i])
  }

  /** The length of the longest run of digits at the end of s. */
  function TrailingDigits(s: string): (n: nat)
    ensures n <= |s|
    ensures AllDigits(s[|s| - n..])
    ensures n < |s| ==> !IsDigit(s[|s| - n - 1])
  {
    if s != [] && IsDigit(s[|s| - 1]) then
      var t := s[..|s| - 1];
      var n := TrailingDigits(t);
      var tail := s[|s| - (n + 1)..];
      assert tail == t[|t| - n..] + [s[|s| - 1]];
      assert forall i :: 0 <= i < |tail| ==> IsDigit(tail[i]);
      assert n + 1 < |s| ==> s[|s| - (n + 1) - 1] == t[|t| - n - 1];
      n + 1
    else 0
  }

  /** `ident.match(/^(.*?) ×(\d+)$/)` followed by `match[1].trim()` and
      `parseInt(match[2], 10)`: the digits can only be the whole trailing
      run of digits, and " ×" must stand right before them. */
  function ParseMultiplicity(s: string): (r: Option<(string, nat)>)
    ensures r.Some? ==>
      var i := |s| - TrailingDigits(s) - 2;
      MatchAt(s, i) && r.value == (Trim(s[..i]), DigitsValue(s[i + 2..]))
    ensures r.None? ==> forall i :: !MatchAt(s, i)
  {
    var n := TrailingDigits(s);
    var k := |s| - n;
    if n >= 1 && k >= 2 && s[k - 2] == ' ' && s[k - 1] == '×' && NoLineBreak(s[..k - 2]) then
      Some((Trim(s[..k - 2]), DigitsValue(s[k..])))
    else
      assert forall i :: MatchAt(s, i) ==> TrailingDigits(s) == |s| - (i + 2) by {
        forall i | MatchAt(s, i)
          ensures TrailingDigits(s) == |s| - (i + 2)
        {
          TrailingDigitsExact(s, |s| - (i + 2));
        }
      }
      None
  }

  /** A run of m digits preceded by a non-digit is the whole trailing run. */
  lemma {:induction false} TrailingDigitsExact(s: string, m: nat)
    requires m < |s| && AllDigits(s[|s| - m..]) && !IsDigit(s[|s| - m - 1])
    ensures TrailingDigits(s) == m
  {
    if m > 0 {
      var t := s[..|s| - 1];
      var u, v := t[|t| - (m - 1)..], s[|s| - m..];
      forall j | 0 <= j < m - 1
        ensures IsDigit(u[j])
      {
        assert u[j] == v[j];
      }
      assert t[|t| - (m - 1) - 1] == s[|s| - m - 1];
      assert s[|s| - 1] == s[|s| - m..][m - 1];
      TrailingDigitsExact(t, m - 1);
    }
  }

  /** Where the pattern matches, ParseMultiplicity returns its groups. */
  lemma MatchParses(s: string, i: int)
    requires MatchAt(s, i)
    ensures ParseMultiplicity(s) == Some((Trim(s[..i]), DigitsValue(s[i + 2..])))
  {
    TrailingDigitsExact(s, |s| - (i + 2));
  }

  /** Where ParseMultiplicity succeeds, the pattern matches before the
      trailing digits. */
  lemma ParseMatches(s: string)
    requires ParseMultiplicity(s).Some?
    ensures MatchAt(s, |s| - TrailingDigits(s) - 2)
  {
  }

  /** ParseMultiplicity agrees with the regular expression: it succeeds
      exactly when the pattern matches, and then returns the trimmed group 1
      and the value of group 2. */
  lemma ParseMultiplicityMatches(s: string)
    ensures ParseMultiplicity(s).Some? <==> exists i :: MatchAt(s, i)
    ensures forall i :: MatchAt(s, i) ==> ParseMultiplicity(s) == Some((Trim(s[..i]), DigitsValue(s[i + 2..])))
  {
    forall i | MatchAt(s, i)
      ensures ParseMultiplicity(s) == Some((Trim(s[..i]), DigitsValue(s[i + 2..])))
    {
      MatchParses(s, i);
    }
    if ParseMultiplicity(s).Some? {
      ParseMatches(s);
    }
  }

  // ---------------------------------------------------------------------
  // Expansion

  /** The id of kart number i of a "name ×N" marker. */
  function NumberedId(cat: Category, name: string, i: nat): string
  {
    Slug(cat.category) + "-" + Slug(name) + "-" + NatToString(i)
  }

  /** The id of a plain identifier. */
  function PlainId(cat: Category, ident: string): string
  {
    Slug(cat.category) + "-" + Slug(ident)
  }

  /** Karts 1..n of a multiplicity marker, in the order the loop writes them. */
  function Numbered(cat: Category, name: string, n: nat): (r: seq<Kart>)
    ensures |r| == n
    ensures forall k :: k in r ==> Idle(k) && k.category == cat.category
  {
    if n == 0 then []
    else Numbered(cat, name, n - 1) + [FreshKart(cat, NumberedId(cat, name, n), name + " " + NatToString(n))]
  }

  /** The karts one identifier expands into. */
  function IdentKarts(cat: Category, ident: string): (r: seq<Kart>)
    ensures ParseMultiplicity(ident).Some? ==> |r| == ParseMultiplicity(ident).value.1
    ensures ParseMultiplicity(ident).None? ==> |r| == 1 && r[0].display == ident
    ensures forall k :: k in r ==> Idle(k) && k.category == cat.category
  {
    var marker := ParseMultiplicity(ident);
    if marker.Some? then Numbered(cat, marker.value.0, marker.value.1)
    else [FreshKart(cat, PlainId(cat, ident), ident)]
  }

  /** The karts of the first |idents| identifiers of a category, in order. */
  function CategoryKarts(cat: Category, idents: seq<string>): seq<Kart>
  {
    if idents == [] then []
    else CategoryKarts(cat, idents[..|idents| - 1]) + IdentKarts(cat, idents[|idents| - 1])
  }

  /** Every kart record the nested loops write, in the order they write them. */
  function CatalogKarts(cats: seq<Category>): seq<Kart>
  {
    if cats == [] then []
    else CatalogKarts(cats[..|cats| - 1]) + CategoryKarts(cats[|cats| - 1], cats[|cats| - 1].idents)
  }

  /** `processedKarts[kartId] = record` for each record in turn, starting
      from m: a later record with the same id replaces the earlier one. */
  function WriteAll(m: map<string, Kart>, rs: seq<Kart>): map<string, Kart>
  {
    if rs == [] then m
    else WriteAll(m, rs[..|rs| - 1])[rs[|rs| - 1].id := rs[|rs| - 1]]
  }

  /** The map the records build from nothing. */
  function Index(rs: seq<Kart>): map<string, Kart>
  {
    WriteAll(map[], rs)
  }

  /** The catalog defaults: the map initializeKartData produces. */
  function CatalogMap(cats: seq<Category>): map<string, Kart>
  {
    Index(CatalogKarts(cats))
  }

  lemma {:induction false} WriteAllConcat(m: map<string, Kart>, a: seq<Kart>, b: seq<Kart>)
    ensures WriteAll(m, a + b) == WriteAll(WriteAll(m, a), b)
  {
    if b != [] {
      assert (a + b)[..|a + b| - 1] == a + b[..|b| - 1];
      WriteAllConcat(m, a, b[..|b| - 1]);
    } else {
      assert a + b == a;
    }
  }

  lemma CategoryKartsSnoc(cat: Category, idents: seq<string>, ident: string)
    ensures CategoryKarts(cat, idents + [ident]) == CategoryKarts(cat, idents) + IdentKarts(cat, ident)
  {
    assert (idents + [ident])[..|idents|] == idents;
  }

  lemma CategoryStep(m: map<string, Kart>, cat: Category, j: nat)
    requires j < |cat.idents|
    ensures WriteAll(m, CategoryKarts(cat, cat.idents[..j + 1]))
         == WriteAll(WriteAll(m, CategoryKarts(cat, cat.idents[..j])), IdentKarts(cat, cat.idents[j]))
  {
    var pre, ident := cat.idents[..j], cat.idents[j];
    assert cat.idents[..j + 1] == pre + [ident];
    CategoryKartsSnoc(cat, pre, ident);
    WriteAllConcat(m, CategoryKarts(cat, pre), IdentKarts(cat, ident));
  }

  lemma NumberedStep(m: map<string, Kart>, cat: Category, name: string, i: nat)
    requires i >= 1
    ensures WriteAll(m, Numbered(cat, name, i))
         == WriteAll(m, Numbered(cat, name, i - 1))[NumberedId(cat, name, i) := FreshKart(cat, NumberedId(cat, name, i), name + " " + NatToString(i))]
  {
    var rs := Numbered(cat, name, i);
    assert rs[..|rs| - 1] == Numbered(cat, name, i - 1);
  }

  lemma CatalogKartsSnoc(cats: seq<Category>, cat: Category)
    ensures CatalogKarts(cats + [cat]) == CatalogKarts(cats) + CategoryKarts(cat, cat.idents)
  {
    assert (cats + [cat])[..|cats|] == cats;
  }

  /** `initializeKartData`: the nested loops over categories, identifiers and
      marker counts. */
  method InitializeKartData(kartData: seq<Category>) returns (processedKarts: map<string, Kart>)
    ensures processedKarts == CatalogMap(kartData)
  {
    processedKarts := map[];
    var c := 0;
    while c < |kartData|
      invariant 0 <= c <= |kartData|
      invariant processedKarts == Index(CatalogKarts(kartData[..c]))
    {
      var cat := kartData[c];
      processedKarts := AddCategory(processedKarts, cat);
      assert processedKarts == Index(CatalogKarts(kartData[..c + 1])) by {
        CatalogKartsSnoc(kartData[..c], cat);
        assert kartData[..c + 1] == kartData[..c] + [cat];
        WriteAllConcat(map[], CatalogKarts(kartData[..c]), CategoryKarts(cat, cat.idents));
      }
      c := c + 1;
    }
    assert kartData[..c] == kartData;
  }

  /** The body of `kartData.forEach`: writes the karts of one category. */
  method AddCategory(processedKarts: map<string, Kart>, cat: Category) returns (processedKarts': map<string, Kart>)
    ensures processedKarts' == WriteAll(processedKarts, CategoryKarts(cat, cat.idents))
  {
    processedKarts' := processedKarts;
    var j := 0;
    while j < |cat.idents|
      invariant 0 <= j <= |cat.idents|
      invariant processedKarts' == WriteAll(processedKarts, CategoryKarts(cat, cat.idents[..j]))
    {
      var ident := cat.idents[j];
      processedKarts' := AddIdent(processedKarts', cat, ident);
      CategoryStep(processedKarts, cat, j);
      j := j + 1;
    }
    assert cat.idents[..j] == cat.idents;
  }

  /** The body of `cat.idents.forEach`: writes the karts of one identifier. */
  method AddIdent(processedKarts: map<string, Kart>, cat: Category, ident: string) returns (processedKarts': map<string, Kart>)
    ensures processedKarts' == WriteAll(processedKarts, IdentKarts(cat, ident))
  {
    var match_ := ParseMultiplicity(ident);
    if match_.Some? {
      processedKarts' := AddNumbered(processedKarts, cat, match_.value.0, match_.value.1);
    } else {
      var kartId := PlainId(cat, ident);
      var k := FreshKart(cat, kartId, ident);
      processedKarts' := processedKarts[kartId := k];
      WriteOne(processedKarts, k);
    }
  }

  /** The `for` loop over 1..count of a marked identifier. */
  method AddNumbered(processedKarts: map<string, Kart>, cat: Category, name: string, count: nat) returns (processedKarts': map<string, Kart>)
    ensures processedKarts' == WriteAll(processedKarts, Numbered(cat, name, count))
  {
    processedKarts' := processedKarts;
    var i := 1;
    while i <= count
      invariant 1 <= i <= count + 1
      invariant processedKarts' == WriteAll(processedKarts, Numbered(cat, name, i - 1))
    {
      var kartId := NumberedId(cat, name, i);
      var k := FreshKart(cat, kartId, name + " " + NatToString(i));
      processedKarts' := processedKarts'[kartId := k];
      NumberedStep(processedKarts, cat, name, i);
      i := i + 1;
    }
  }

  // ---------------------------------------------------------------------
  // Properties of the expansion

  /** A marker with count n gives exactly n karts, numbered 1..n. */
  lemma {:induction false} NumberedShape(cat: Category, name: string, n: nat)
    ensures |Numbered(cat, name, n)| == n
    ensures forall k :: 0 <= k < n ==>
      Numbered(cat, name, n)[k] == FreshKart(cat, NumberedId(cat, name, k + 1), name + " " + NatToString(k + 1))
  {
    if n > 0 {
      NumberedShape(cat, name, n - 1);
      var rs, pre := Numbered(cat, name, n), Numbered(cat, name, n - 1);
      forall k | 0 <= k < n - 1
        ensures rs[k] == pre[k]
      {
      }
    }
  }

  /** An identifier written "name ×N" expands into N karts with display
      "name i" and id <category slug>-<name slug>-i, i = 1..N. */
  lemma MarkerExpansion(cat: Category, raw: string, n: nat)
    requires NoLineBreak(raw)
    ensures |IdentKarts(cat, raw + " ×" + NatToString(n))| == n
    ensures forall k :: 0 <= k < n ==>
      var kart := IdentKarts(cat, raw + " ×" + NatToString(n))[k];
      kart.display == Trim(raw) + " " + NatToString(k + 1) && kart.id == NumberedId(cat, Trim(raw), k + 1) && Idle(kart)
  {
    var s := raw + " ×" + NatToString(n);
    assert s[..|raw|] == raw && s[|raw| + 2..] == NatToString(n);
    assert MatchAt(s, |raw|);
    ParseMultiplicityMatches(s);
    NatToStringValue(n);
    NumberedShape(cat, Trim(raw), n);
  }

  /** Any identifier the marker does not match is one kart whose display is
      the identifier itself. */
  lemma PlainExpansion(cat: Category, ident: string)
    requires forall i :: !MatchAt(ident, i)
    ensures IdentKarts(cat, ident) == [FreshKart(cat, PlainId(cat, ident), ident)]
  {
    ParseMultiplicityMatches(ident);
  }

  /** The keys of Index are exactly the ids of its records. */
  lemma {:induction false} IndexKeys(rs: seq<Kart>)
    ensures Index(rs).Keys == set k | 0 <= k < |rs| :: rs[k].id
  {
    if rs != [] {
      IndexKeys(rs[..|rs| - 1]);
      var front := rs[..|rs| - 1];
      assert forall k :: 0 <= k < |front| ==> front[k] == rs[k];
    }
  }

  /** Each id maps to the last record written with that id: two identifiers
      with the same slug silently collapse into the later one. */
  lemma {:induction false} IndexLast(rs: seq<Kart>, k: nat)
    requires k < |rs|
    requires forall j :: k < j < |rs| ==> rs[j].id != rs[k].id
    ensures rs[k].id in Index(rs) && Index(rs)[rs[k].id] == rs[k]
  {
    if k < |rs| - 1 {
      IndexLast(rs[..|rs| - 1], k);
    }
  }

  /** Every value of Index is one of its records, stored under its own id. */
  lemma {:induction false} IndexValues(rs: seq<Kart>)
    ensures forall id :: id in Index(rs) ==> Index(rs)[id].id == id && Index(rs)[id] in rs
  {
    if rs != [] {
      var front := rs[..|rs| - 1];
      IndexValues(front);
      assert Index(rs) == Index(front)[rs[|rs| - 1].id := rs[|rs| - 1]];
      assert forall x :: x in front ==> x in rs;
    }
  }

  lemma {:induction false} CategoryKartsIdle(cat: Category, idents: seq<string>)
    ensures forall k :: k in CategoryKarts(cat, idents) ==> Idle(k) && k.category == cat.category
  {
    if idents != [] {
      CategoryKartsIdle(cat, idents[..|idents| - 1]);
      var ident := idents[|idents| - 1];
      var marker := ParseMultiplicity(ident);
      if marker.Some? {
        NumberedShape(cat, marker.value.0, marker.value.1);
      }
    }
  }

  lemma {:induction false} CatalogKartsIdle(cats: seq<Category>)
    ensures forall k :: k in CatalogKarts(cats) ==> Idle(k)
  {
    if cats != [] {
      CatalogKartsIdle(cats[..|cats| - 1]);
      CategoryKartsIdle(cats[|cats| - 1], cats[|cats| - 1].idents);
    }
  }

  /** Every freshly initialised kart is available with all session fields
      null, and is stored under its own id. */
  lemma CatalogIdle(cats: seq<Category>)
    ensures forall id :: id in CatalogMap(cats) ==> Idle(CatalogMap(cats)[id]) && CatalogMap(cats)[id].id == id
  {
    CatalogKartsIdle(cats);
    IndexValues(CatalogKarts(cats));
  }

  lemma LetterSlug(c: char)
    requires !IsJsSpace(c)
    ensures Hyphenate([c]) == [c]
  {
    assert [c][1..] == [];
  }

  /** "A" and "a" are different identifiers with the same slug, and neither
      carries a marker. */
  lemma CaseCollides()
    ensures "A" != "a" && Slug("A") == Slug("a")
    ensures ParseMultiplicity("A").None? && ParseMultiplicity("a").None?
  {
    LetterSlug('A');
    LetterSlug('a');
    assert ToLower("A") == "a";
    assert ToLower("a") == "a";
    assert TrailingDigits("A") == 0 && TrailingDigits("a") == 0;
  }

  lemma WriteOne(m: map<string, Kart>, k: Kart)
    ensures WriteAll(m, [k]) == m[k.id := k]
  {
    assert [k][..0] == [];
  }

  lemma PlainKarts(cat: Category, ident: string)
    requires ParseMultiplicity(ident).None?
    ensures IdentKarts(cat, ident) == [FreshKart(cat, PlainId(cat, ident), ident)]
  {
  }

  lemma CategoryPair(cat: Category, a: string, b: string)
    ensures CategoryKarts(cat, [a, b]) == IdentKarts(cat, a) + IdentKarts(cat, b)
  {
    var ab, first := [a, b], IdentKarts(cat, a);
    assert [a][..0] == [];
    assert CategoryKarts(cat, [a]) == CategoryKarts(cat, []) + first;
    assert [] + first == first;
    assert ab[..1] == [a] && ab[1] == b;
  }

  lemma CatalogSingle(cat: Category)
    ensures CatalogKarts([cat]) == CategoryKarts(cat, cat.idents)
  {
    assert [cat][..0] == [];
  }

  lemma PairKarts(cat: Category, a: string, b: string)
    requires cat.idents == [a, b]
    ensures CatalogKarts([cat]) == IdentKarts(cat, a) + IdentKarts(cat, b)
  {
    CatalogSingle(cat);
    CategoryPair(cat, a, b);
  }

  /** Two plain identifiers of one category whose slugs agree: one kart
      survives, the later one. */
  lemma SlugCollision(cat: Category, a: string, b: string)
    requires cat.idents == [a, b]
    requires ParseMultiplicity(a).None? && ParseMultiplicity(b).None?
    requires Slug(a) == Slug(b)
    ensures CatalogMap([cat]) == map[PlainId(cat, b) := FreshKart(cat, PlainId(cat, b), b)]
  {
    var x, y := FreshKart(cat, PlainId(cat, a), a), FreshKart(cat, PlainId(cat, b), b);
    PlainKarts(cat, a);
    PlainKarts(cat, b);
    PairKarts(cat, a, b);
    WriteAllConcat(map[], [x], [y]);
    WriteOne(map[], x);
    WriteOne(map[x.id := x], y);
  }
}
