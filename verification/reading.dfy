/** Value extraction: how the bot turns what the text recognizer saw in one screen region
    into a non-negative integer, and how one read cycle fills the reading table for a list
    of named regions (get_resource_value in main.py).

    The recognizer itself is not modelled: for each region the model is given what the
    call produced, either an exception or a list of (text, confidence) detections. */
module Reading {

  /** One recognizer detection. The confidence is carried along but never consulted. */
  datatype Detection = Detection(text: string, confidence: real)

  /** The outcome of capturing one region and running the recognizer on it: the call
      raised (no region, no display, engine failure), or it returned detections. */
  datatype Extraction = Raised | Detected(detections: seq<Detection>)

  /** A reading table: resource name to parsed amount. Only parsed amounts and zeros
      are ever stored, so the values are natural numbers. */
  type Table = map<string, nat>

  /** The three characters the cleaning step strips. */
  predicate IsSeparator(c: char) {
    c == ',' || c == ' ' || c == '.'
  }

  predicate IsDigit(c: char) {
    '0' <= c <= '9'
  }

  /** Python's `str.isdigit` over ASCII: non-empty and every character a digit. */
  predicate IsDigits(s: string) {
    |s| > 0 && AllDigits(s)
  }

  /** Every character of `s` is a digit (checked from the last character back). */
  predicate AllDigits(s: string) {
    |s| == 0 || (AllDigits(s[..|s| - 1]) && IsDigit(s[|s| - 1]))
  }

  lemma {:induction false} AllDigitsAt(s: string, i: nat)
    requires AllDigits(s) && i < |s|
    ensures IsDigit(s[i])
    decreases |s|
  {
    if i < |s| - 1 {
      AllDigitsAt(s[..|s| - 1], i);
    }
  }

  // ---------------------------------------------------------------------------
  // Cleaning

  /** `s.replace(c, '')`: every occurrence of `c` is dropped, everything else is kept
      in order. */
  function Remove(s: string, c: char): string {
    if |s| == 0 then [] else (if s[0] == c then [] else [s[0]]) + Remove(s[1..], c)
  }

  /** The cleaning step as written: three successive `replace` passes, for comma, space
      and period. */
  function Clean(text: string): string {
    Remove(Remove(Remove(text, ','), ' '), '.')
  }

  /** `s.replace(c, '')` leaves no `c` behind and keeps every occurrence of every other
      character. */
  lemma {:induction false} RemoveCounts(s: string, c: char)
    ensures multiset(Remove(s, c))[c] == 0
    ensures forall x :: x != c ==> multiset(Remove(s, c))[x] == multiset(s)[x]
    decreases |s|
  {
    if |s| > 0 {
      assert s == [s[0]] + s[1..];
      RemoveCounts(s[1..], c);
    }
  }

  /** Cleaning removes every separator and keeps every occurrence of every other
      character. */
  lemma CleanCounts(text: string)
    ensures forall x :: IsSeparator(x) ==> multiset(Clean(text))[x] == 0
    ensures forall x :: !IsSeparator(x) ==> multiset(Clean(text))[x] == multiset(text)[x]
  {
    var once := Remove(text, ',');
    var twice := Remove(once, ' ');
    RemoveCounts(text, ',');
    RemoveCounts(once, ' ');
    RemoveCounts(twice, '.');
  }

  /** Reference definition of cleaning: one left-to-right pass keeping exactly the
      characters that are not separators. */
  function Keep(s: string): string {
    if |s| == 0 then [] else (if IsSeparator(s[0]) then [] else [s[0]]) + Keep(s[1..])
  }

  lemma {:induction false} KeepAppend(a: string, b: string)
    ensures Keep(a + b) == Keep(a) + Keep(b)
    decreases |a|
  {
    if |a| == 0 {
      assert a + b == b;
    } else {
      assert (a + b)[1..] == a[1..] + b;
      assert (a + b)[0] == a[0];
      KeepAppend(a[1..], b);
    }
  }

  lemma {:induction false} RemoveAppend(a: string, b: string, c: char)
    ensures Remove(a + b, c) == Remove(a, c) + Remove(b, c)
    decreases |a|
  {
    if |a| == 0 {
      assert a + b == b;
    } else {
      assert (a + b)[1..] == a[1..] + b;
      assert (a + b)[0] == a[0];
      RemoveAppend(a[1..], b, c);
    }
  }

  /** The three `replace` passes remove exactly the separators and keep every other
      character in its original order. */
  lemma {:induction false} CleanIsKeep(s: string)
    ensures Clean(s) == Keep(s)
    decreases |s|
  {
    if |s| > 0 {
      var x := s[0];
      var t := s[1..];
      var h1 := if x == ',' then [] else [x];
      var h2 := if x == ',' || x == ' ' then [] else [x];
      var h3 := if IsSeparator(x) then [] else [x];
      assert Remove(s, ',') == h1 + Remove(t, ',');
      RemoveAppend(h1, Remove(t, ','), ' ');
      assert Remove(h1, ' ') == h2;
      RemoveAppend(h2, Remove(Remove(t, ','), ' '), '.');
      assert Remove(h2, '.') == h3;
      CleanIsKeep(t);
    }
  }

  // ---------------------------------------------------------------------------
  // Base-10 digits

  function DigitValue(c: char): nat
    requires IsDigit(c)
  {
    (c as int) - ('0' as int)
  }

  function DigitChar(d: nat): (c: char)
    requires d < 10
    ensures IsDigit(c) && DigitValue(c) == d
  {
    (('0' as int) + d) as char
  }

  /** `int(s)` for a string of ASCII digits, read most significant digit first. */
  function Value(s: string): nat
    requires AllDigits(s)
  {
    if |s| == 0 then 0 else 10 * Value(s[..|s| - 1]) + DigitValue(s[|s| - 1])
  }

  /** The decimal rendering of `n` without leading zeros; the inverse of Value. */
  function ToDigits(n: nat): (r: string)
    ensures IsDigits(r)
    ensures Value(r) == n
    ensures n > 0 ==> r[0] != '0'
  {
    if n < 10 then [DigitChar(n)]
    else
      var prefix := ToDigits(n / 10);
      var r := prefix + [DigitChar(n % 10)];
      assert r[..|r| - 1] == prefix;
      r
  }

  /** Python's `int` ignores leading zeros: "007" reads as 7. */
  lemma {:induction false} LeadingZero(s: string)
    requires AllDigits(s)
    ensures AllDigits(['0'] + s) && Value(['0'] + s) == Value(s)
    decreases |s|
  {
    if |s| > 0 {
      var z := ['0'] + s;
      assert z[..|z| - 1] == ['0'] + s[..|s| - 1];
      LeadingZero(s[..|s| - 1]);
    }
  }

  // ---------------------------------------------------------------------------
  // One detection

  /** The amount recorded for a cleaned text: its base-10 value when it is a non-empty
      digit string, otherwise 0. */
  function ParseCleaned(cleaned: string): nat {
    if IsDigits(cleaned) then Value(cleaned) else 0
  }

  /** The amount recorded for one detection text. */
  function ParseText(text: string): nat {
    ParseCleaned(Clean(text))
  }

  /** A number shown with thousands separators, or with separators and spaces anywhere
      in it, reads back as that number. */
  lemma ParseSeparated(text: string, n: nat)
    requires Keep(text) == ToDigits(n)
    ensures ParseText(text) == n
  {
    CleanIsKeep(text);
  }

  /** Any character that is neither a digit nor a separator makes the detection read
      as 0. */
  lemma ParseForeign(text: string, i: nat)
    requires i < |text| && !IsDigit(text[i]) && !IsSeparator(text[i])
    ensures ParseText(text) == 0
  {
    var x := text[i];
    assert x in multiset(text);
    CleanCounts(text);
    var c := Clean(text);
    assert x in multiset(c);
    var j :| 0 <= j < |c| && c[j] == x;
    if IsDigits(c) {
      AllDigitsAt(c, j);
    }
  }

  /** A text made only of separators cleans to the empty string, which is not a digit
      string, so it reads as 0. */
  lemma ParseOnlySeparators(text: string)
    requires forall i :: 0 <= i < |text| ==> IsSeparator(text[i])
    ensures ParseText(text) == 0
  {
    var c := Clean(text);
    if |c| > 0 {
      var x := c[0];
      assert x in multiset(c);
      CleanCounts(text);
    }
  }

  // ---------------------------------------------------------------------------
  // One region

  /** Reference meaning of one region's read: the value of its last detection, and 0
      when the call raised or returned nothing. */
  function ExtractedValue(ex: Extraction): nat {
    match ex
    case Raised => 0
    case Detected(ds) => if |ds| == 0 then 0 else ParseText(ds[|ds| - 1].text)
  }

  /** The inner loop over detections, in order: every detection overwrites the entry
      for `name`, so the table after the loop is the table after all but the last
      detection, overwritten by the last one. */
  function ApplyDetections(ds: seq<Detection>, name: string, table: Table): (r: Table)
    ensures |ds| == 0 ==> r == table
    ensures |ds| > 0 ==> r == table[name := ParseText(ds[|ds| - 1].text)]
    decreases |ds|
  {
    if |ds| == 0 then table
    else ApplyDetections(ds[..|ds| - 1], name, table)[name := ParseText(ds[|ds| - 1].text)]
  }

  /** The `try` body for one region, with the `except` branch for a raised call. */
  function ReadRegion(ex: Extraction, name: string, table: Table): (r: Table)
    ensures r == table[name := ExtractedValue(ex)]
  {
    match ex
    case Raised => table[name := 0]
    case Detected(ds) =>
      if |ds| > 0 then ApplyDetections(ds, name, table) else table[name := 0]
  }

  // ---------------------------------------------------------------------------
  // One read cycle

  /** The names a read cycle covers. */
  function Names(regions: seq<(string, Extraction)>): set<string> {
    set i | 0 <= i < |regions| :: regions[i].0
  }

  /** No later region in the list carries the same name as region `i`. */
  predicate IsLastFor(regions: seq<(string, Extraction)>, i: int)
    requires 0 <= i < |regions|
  {
    forall j :: i < j < |regions| ==> regions[j].0 != regions[i].0
  }

  /** get_resource_value: read every region of the list, in order, into the table.
      Every listed name ends with an entry; no other entry is added. */
  function ReadAll(regions: seq<(string, Extraction)>, table: Table): (r: Table)
    ensures r.Keys == table.Keys + Names(regions)
    decreases |regions|
  {
    if |regions| == 0 then table
    else
      var n := |regions| - 1;
      NamesSnoc(regions);
      ReadRegion(regions[n].1, regions[n].0, ReadAll(regions[..n], table))
  }

  lemma NamesSnoc(regions: seq<(string, Extraction)>)
    requires |regions| > 0
    ensures Names(regions) == Names(regions[..|regions| - 1]) + {regions[|regions| - 1].0}
  {
    var n := |regions| - 1;
    forall k | k in Names(regions) ensures k in Names(regions[..n]) + {regions[n].0} {
      var i :| 0 <= i < |regions| && regions[i].0 == k;
      if i < n { assert regions[..n][i].0 == k; }
    }
  }

  /** Last region wins: the entry for a listed name is what the last region of that name
      yielded, whatever the table held before and whatever earlier regions of the same
      name yielded. A region whose read raised therefore records 0 without disturbing
      the regions read after it. */
  lemma {:induction false} ReadAllLastWins(regions: seq<(string, Extraction)>, table: Table, i: nat)
    requires i < |regions| && IsLastFor(regions, i)
    ensures ReadAll(regions, table)[regions[i].0] == ExtractedValue(regions[i].1)
    decreases |regions|
  {
    var n := |regions| - 1;
    if i < n {
      var before := regions[..n];
      assert before[i] == regions[i];
      assert IsLastFor(before, i);
      ReadAllLastWins(before, table, i);
    }
  }

  /** Entries for names outside the list are left exactly as they were. */
  lemma {:induction false} ReadAllKeepsOthers(regions: seq<(string, Extraction)>, table: Table, k: string)
    requires k in table && k !in Names(regions)
    ensures ReadAll(regions, table)[k] == table[k]
    decreases |regions|
  {
    if |regions| > 0 {
      var n := |regions| - 1;
      NamesSnoc(regions);
      ReadAllKeepsOthers(regions[..n], table, k);
    }
  }
}

/** Worked examples of the reading rules. */
module ReadingExamples {
  import opened Reading

  lemma KeepGrouped()
    ensures Keep("12,345") == "12345"
  {
  }

  lemma DigitsOfGrouped()
    ensures ToDigits(12345) == "12345"
  {
    assert ToDigits(1) == "1";
    assert ToDigits(12) == "12";
    assert ToDigits(123) == "123";
    assert ToDigits(1234) == "1234";
  }

  lemma KeepSpaced()
    ensures Keep(" 7 . 5 ") == "75"
  {
  }

  lemma DigitsOfSpaced()
    ensures ToDigits(75) == "75"
  {
    assert ToDigits(7) == "7";
  }

  /** Thousands separators and stray spaces or periods are ignored. */
  lemma SeparatedExamples()
    ensures ParseText("12,345") == 12345
    ensures ParseText(" 7 . 5 ") == 75
  {
    KeepGrouped();
    DigitsOfGrouped();
    ParseSeparated("12,345", 12345);
    KeepSpaced();
    DigitsOfSpaced();
    ParseSeparated(" 7 . 5 ", 75);
  }

  /** A later unreadable detection overwrites an earlier good number with 0. */
  lemma LaterGarbageWins()
    ensures ExtractedValue(Detected([Detection("500", 0.9), Detection("5a0", 0.4)])) == 0
  {
    ParseForeign("5a0", 1);
  }
}
