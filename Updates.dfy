/** The dashboard's natural-language update command: `parse_update_query` turns a command
    into an `updates` dictionary, `apply_data_updates` writes it into the inventory table,
    and the submit handler saves the table only when the update changed it. */
module Updates {
  import opened Wrappers
  import opened Text
  import opened Inventory

  // ---------------------------------------------------------------------------------------
  // The `updates` dictionary
  // ---------------------------------------------------------------------------------------

  /** One key of the dictionary and its value. */
  datatype Entry = Entry(key: string, value: Value)

  /** A Python dictionary, in insertion order. */
  type Updates = seq<Entry>

  /** No key occurs twice, as in every dictionary. */
  predicate IsDict(ups: Updates) {
    forall i, j :: 0 <= i < j < |ups| ==> ups[i].key != ups[j].key
  }

  /** `key in ups`. */
  predicate HasKey(ups: Updates, key: string) {
    exists i :: 0 <= i < |ups| && ups[i].key == key
  }

  /** `ups.get(key)`. */
  function Lookup(ups: Updates, key: string): (v: Option<Value>)
    ensures v.Some? <==> HasKey(ups, key)
    ensures v.Some? ==> Entry(key, v.value) in ups
  {
    if ups == [] then None
    else if ups[0].key == key then Some(ups[0].value)
    else
      assert forall i :: 1 <= i < |ups| ==> ups[1..][i - 1] == ups[i];
      Lookup(ups[1..], key)
  }

  /** In a dictionary, the value found under the key of an entry is that entry's value. */
  lemma {:induction false} LookupEntry(ups: Updates, i: nat)
    requires IsDict(ups) && i < |ups|
    ensures Lookup(ups, ups[i].key) == Some(ups[i].value)
  {
    if i > 0 {
      assert IsDict(ups[1..]);
      assert ups[1..][i - 1] == ups[i];
      LookupEntry(ups[1..], i - 1);
    }
  }

  /** `ups[key] = value`: an existing key keeps its place and takes the new value, a new key
      is added at the end. */
  function Put(ups: Updates, key: string, value: Value): (r: Updates)
    ensures Lookup(r, key) == Some(value)
    ensures forall k :: k != key ==> Lookup(r, k) == Lookup(ups, k)
  {
    if ups == [] then [Entry(key, value)]
    else if ups[0].key == key then [Entry(key, value)] + ups[1..]
    else [ups[0]] + Put(ups[1..], key, value)
  }

  /** Assigning brings no key but the assigned one. */
  lemma {:induction false} PutKeys(ups: Updates, key: string, value: Value)
    ensures forall i :: 0 <= i < |Put(ups, key, value)| ==>
              Put(ups, key, value)[i].key == key || HasKey(ups, Put(ups, key, value)[i].key)
  {
    var r := Put(ups, key, value);
    if ups == [] {
    } else if ups[0].key == key {
      forall i | 0 <= i < |r| ensures r[i].key == key || HasKey(ups, r[i].key) {
        if i > 0 { assert r[i] == ups[i]; }
      }
    } else {
      var tail := ups[1..];
      PutKeys(tail, key, value);
      var rest := Put(tail, key, value);
      forall i | 0 <= i < |r| ensures r[i].key == key || HasKey(ups, r[i].key) {
        if i == 0 {
          assert r[0] == ups[0];
        } else {
          assert r[i] == rest[i - 1];
          if rest[i - 1].key != key {
            var j :| 0 <= j < |tail| && tail[j].key == rest[i - 1].key;
            assert tail[j] == ups[j + 1];
          }
        }
      }
    }
  }

  /** Assigning keeps the keys distinct. */
  lemma {:induction false} PutKeepsDict(ups: Updates, key: string, value: Value)
    requires IsDict(ups)
    ensures IsDict(Put(ups, key, value))
  {
    var r := Put(ups, key, value);
    if ups == [] {
    } else if ups[0].key == key {
      forall i, j | 0 <= i < j < |r| ensures r[i].key != r[j].key {
        assert r[j] == ups[j];
        if i > 0 { assert r[i] == ups[i]; }
      }
    } else {
      var tail := ups[1..];
      assert IsDict(tail);
      PutKeepsDict(tail, key, value);
      PutKeys(tail, key, value);
      var rest := Put(tail, key, value);
      assert r == [ups[0]] + rest;
      forall i | 0 <= i < |rest| ensures rest[i].key != ups[0].key {
        if rest[i].key != key {
          var j :| 0 <= j < |tail| && tail[j].key == rest[i].key;
          assert tail[j] == ups[j + 1];
        }
      }
      forall i, j | 0 <= i < j < |r| ensures r[i].key != r[j].key {
        if i > 0 { assert r[i] == rest[i - 1] && r[j] == rest[j - 1]; }
        else { assert r[j] == rest[j - 1]; }
      }
    }
  }

  /** Assigns the entries one after the other, as a sequence of `ups[key] = value`. */
  function PutAll(ups: Updates, es: seq<Entry>): (r: Updates)
    ensures IsDict(ups) ==> IsDict(r)
    decreases |es|
  {
    if es == [] then ups
    else
      var next := Put(ups, es[0].key, es[0].value);
      assert IsDict(ups) ==> IsDict(next) by {
        if IsDict(ups) { PutKeepsDict(ups, es[0].key, es[0].value); }
      }
      PutAll(next, es[1..])
  }

  /** Assigning a single entry is one `ups[key] = value`. */
  lemma PutAllOne(ups: Updates, key: string, value: Value)
    ensures PutAll(ups, [Entry(key, value)]) == Put(ups, key, value)
  {
    assert [Entry(key, value)][1..] == [];
  }

  /** Assigning two entries is two `ups[key] = value` in a row. */
  lemma PutAllTwo(ups: Updates, e1: Entry, e2: Entry)
    ensures PutAll(ups, [e1, e2]) == Put(Put(ups, e1.key, e1.value), e2.key, e2.value)
  {
    assert [e1, e2][1..] == [e2];
    PutAllOne(Put(ups, e1.key, e1.value), e2.key, e2.value);
  }

  /** After assigning a dictionary's entries, a key holds its value from those entries if it
      has one there, and its earlier value otherwise. */
  lemma {:induction false} LookupPutAll(ups: Updates, es: seq<Entry>, k: string)
    requires IsDict(es)
    ensures Lookup(PutAll(ups, es), k) == if HasKey(es, k) then Lookup(es, k) else Lookup(ups, k)
    decreases |es|
  {
    if es != [] {
      assert IsDict(es[1..]);
      LookupPutAll(Put(ups, es[0].key, es[0].value), es[1..], k);
      if k == es[0].key {
        assert !HasKey(es[1..], k);
      } else {
        assert HasKey(es, k) <==> HasKey(es[1..], k);
      }
    }
  }

  // ---------------------------------------------------------------------------------------
  // Parsing a command
  // ---------------------------------------------------------------------------------------

  /** `query.lower().strip()`: the text every pattern is matched against. */
  function Normalize(query: string): (q: string)
    ensures IsLowerCase(q)
  {
    StripKeepsLowerCase(Lower(query));
    Strip(Lower(query))
  }

  /** A capture group: the half-open range of the normalised command it matched. */
  datatype Span = Span(start: nat, end: nat)

  /** `match.group(n)`: the text of a capture. */
  function Captured(q: string, sp: Span): (s: string)
    requires sp.start <= sp.end <= |q|
    ensures |s| == sp.end - sp.start && forall i :: 0 <= i < |s| ==> s[i] == q[sp.start + i]
  {
    q[sp.start..sp.end]
  }

  /** The two captures of the rename pattern: the old name and the new one. */
  datatype Rename = Rename(oldName: Span, newName: Span)

  /** What the regular expressions found in the normalised command: one optional capture per
      pattern, two for the rename pattern. How the expressions match is not modelled; their
      results are inputs. */
  datatype Captures = Captures(
    productId: Option<Span>,
    rename: Option<Rename>,
    currentStock: Option<Span>,
    lastSoldDate: Option<Span>,
    expiryDate: Option<Span>,
    salesLastMonth: Option<Span>,
    location: Option<Span>,
    factoryDistance: Option<Span>)

  /** A non-empty range of the command. */
  predicate SpanIn(q: string, sp: Span) {
    sp.start < sp.end <= |q|
  }

  /** A run of `\d+`. */
  predicate DigitsIn(q: string, sp: Span) {
    SpanIn(q, sp) && AllDigits(q[sp.start..sp.end])
  }

  /** What a regular-expression engine guarantees about the captures: every group is a
      non-empty range of the command, and the `\d+` groups hold digits only. */
  predicate Fits(c: Captures, q: string) {
    && (c.productId.Some? ==> DigitsIn(q, c.productId.value))
    && (c.rename.Some? ==> SpanIn(q, c.rename.value.oldName) && SpanIn(q, c.rename.value.newName))
    && (c.currentStock.Some? ==> DigitsIn(q, c.currentStock.value))
    && (c.lastSoldDate.Some? ==> SpanIn(q, c.lastSoldDate.value))
    && (c.expiryDate.Some? ==> SpanIn(q, c.expiryDate.value))
    && (c.salesLastMonth.Some? ==> DigitsIn(q, c.salesLastMonth.value))
    && (c.location.Some? ==> SpanIn(q, c.location.value))
    && (c.factoryDistance.Some? ==> DigitsIn(q, c.factoryDistance.value))
  }

  /** The field patterns, in the order the parser tries them. */
  datatype Pattern =
    | ProductNamePattern
    | CurrentStockPattern
    | LastSoldDatePattern
    | ExpiryDatePattern
    | SalesLastMonthPattern
    | LocationPattern
    | FactoryDistancePattern

  const Patterns: seq<Pattern> := [
    ProductNamePattern, CurrentStockPattern, LastSoldDatePattern, ExpiryDatePattern,
    SalesLastMonthPattern, LocationPattern, FactoryDistancePattern]

  /** Where a pattern sits in the parser's order. */
  function PatternIndex(p: Pattern): (n: nat)
    ensures n < |Patterns| && Patterns[n] == p
  {
    match p
    case ProductNamePattern => 0
    case CurrentStockPattern => 1
    case LastSoldDatePattern => 2
    case ExpiryDatePattern => 3
    case SalesLastMonthPattern => 4
    case LocationPattern => 5
    case FactoryDistancePattern => 6
  }

  /** The patterns are listed once each. */
  lemma PatternIndexOfPosition(n: nat)
    requires n < |Patterns|
    ensures PatternIndex(Patterns[n]) == n
  {
  }

  /** The pattern that writes a key, if any. The numeric fields are keyed by their pattern
      name in title case with the underscores removed, which gives `FactoryDistance`, not
      the column name `FactoryDistanceKM`. */
  function PatternOf(key: string): Option<Pattern> {
    if key == "old_name" || key == "ProductName" then Some(ProductNamePattern)
    else if key == "CurrentStock" then Some(CurrentStockPattern)
    else if key == "LastSoldDate" then Some(LastSoldDatePattern)
    else if key == "ExpiryDate" then Some(ExpiryDatePattern)
    else if key == "SalesLastMonth" then Some(SalesLastMonthPattern)
    else if key == "Location" then Some(LocationPattern)
    else if key == "FactoryDistance" then Some(FactoryDistancePattern)
    else None
  }

  /** `int(match.group(1))` stored under `key`, when the pattern matched. */
  function NumberEntry(q: string, sp: Option<Span>, key: string): (es: seq<Entry>)
    requires sp.Some? ==> DigitsIn(q, sp.value)
    ensures |es| <= 1
  {
    if sp.Some? then [Entry(key, IntV(DigitsValue(Captured(q, sp.value))))] else []
  }

  /** `match.group(1)` stored as text under `key`, when the pattern matched. */
  function TextEntry(q: string, sp: Option<Span>, key: string): (es: seq<Entry>)
    requires sp.Some? ==> SpanIn(q, sp.value)
    ensures |es| <= 1
  {
    if sp.Some? then [Entry(key, StrV(Captured(q, sp.value)))] else []
  }

  /** The assignments one pattern makes to the dictionary. */
  function PatternEntries(q: string, c: Captures, p: Pattern): (es: seq<Entry>)
    requires Fits(c, q)
    ensures IsDict(es)
    ensures forall e :: e in es ==> PatternOf(e.key) == Some(p)
  {
    match p
    case ProductNamePattern =>
      if c.rename.Some? then
        [Entry("old_name", StrV(Captured(q, c.rename.value.oldName))),
         Entry("ProductName", StrV(Captured(q, c.rename.value.newName)))]
      else []
    case CurrentStockPattern => NumberEntry(q, c.currentStock, "CurrentStock")
    case LastSoldDatePattern => TextEntry(q, c.lastSoldDate, "LastSoldDate")
    case ExpiryDatePattern => TextEntry(q, c.expiryDate, "ExpiryDate")
    case SalesLastMonthPattern => NumberEntry(q, c.salesLastMonth, "SalesLastMonth")
    case LocationPattern => TextEntry(q, c.location, "Location")
    case FactoryDistancePattern => NumberEntry(q, c.factoryDistance, "FactoryDistance")
  }

  /** The ProductID found ahead of the field patterns. */
  function IdEntries(q: string, c: Captures): (es: seq<Entry>)
    requires Fits(c, q)
    ensures IsDict(es)
    ensures forall e :: e in es ==> e.key == "ProductID"
  {
    NumberEntry(q, c.productId, "ProductID")
  }

  /** What a key holds after the ProductID and the first `n` patterns: what the pattern
      owning it assigned, if that pattern has run, and for any other key what the ProductID
      step assigned. */
  function AssignedUpTo(q: string, c: Captures, n: nat, k: string): Option<Value>
    requires Fits(c, q) && n <= |Patterns|
  {
    match PatternOf(k)
    case Some(p) => if PatternIndex(p) < n then Lookup(PatternEntries(q, c, p), k) else None
    case None => Lookup(IdEntries(q, c), k)
  }

  /** The dictionary after the ProductID and the first `n` field patterns: each key holds
      what the pattern owning it assigned, once that pattern has run, and the ProductID key
      holds the number found. */
  function ParsedUpTo(q: string, c: Captures, n: nat): (ups: Updates)
    requires Fits(c, q) && n <= |Patterns|
    ensures IsDict(ups)
    ensures forall k :: Lookup(ups, k) == AssignedUpTo(q, c, n, k)
  {
    if n == 0 then
      LookupParsedNone(q, c);
      IdEntries(q, c)
    else
      var prev := ParsedUpTo(q, c, n - 1);
      LookupParsedNext(q, c, n, prev);
      PutAll(prev, PatternEntries(q, c, Patterns[n - 1]))
  }

  /** Before any field pattern only the ProductID is recorded. */
  lemma LookupParsedNone(q: string, c: Captures)
    requires Fits(c, q)
    ensures forall k :: Lookup(IdEntries(q, c), k) == AssignedUpTo(q, c, 0, k)
  {
    forall k ensures Lookup(IdEntries(q, c), k) == AssignedUpTo(q, c, 0, k) {
      if PatternOf(k).Some? {
        assert !HasKey(IdEntries(q, c), k);
      }
    }
  }

  /** Assigning the entries of one pattern changes only the keys that pattern owns; a key it
      owns that was absent before holds what the pattern assigned, if anything. */
  lemma StepLookup(prev: Updates, es: seq<Entry>, p: Pattern, k: string)
    requires IsDict(es) && forall e :: e in es ==> PatternOf(e.key) == Some(p)
    requires PatternOf(k) == Some(p) ==> Lookup(prev, k) == None
    ensures Lookup(PutAll(prev, es), k) == if PatternOf(k) == Some(p) then Lookup(es, k) else Lookup(prev, k)
  {
    LookupPutAll(prev, es, k);
    if HasKey(es, k) {
      var i :| 0 <= i < |es| && es[i].key == k;
      assert es[i] in es;
    }
  }

  /** The `n`-th field pattern adds its own keys and leaves every other key as it was. */
  lemma LookupParsedNext(q: string, c: Captures, n: nat, prev: Updates)
    requires Fits(c, q) && 0 < n <= |Patterns|
    requires forall k :: Lookup(prev, k) == AssignedUpTo(q, c, n - 1, k)
    ensures forall k :: Lookup(PutAll(prev, PatternEntries(q, c, Patterns[n - 1])), k) == AssignedUpTo(q, c, n, k)
  {
    var p := Patterns[n - 1];
    var es := PatternEntries(q, c, p);
    PatternIndexOfPosition(n - 1);
    forall k ensures Lookup(PutAll(prev, es), k) == AssignedUpTo(q, c, n, k) {
      assert Lookup(prev, k) == AssignedUpTo(q, c, n - 1, k);
      StepLookup(prev, es, p, k);
      match PatternOf(k)
      case None =>
      case Some(pk) =>
        if pk != p {
          assert PatternIndex(pk) != n - 1;
        }
    }
  }

  /** The dictionary `parse_update_query` returns for the normalised command `q`. */
  function ParsedUpdates(q: string, c: Captures): (ups: Updates)
    requires Fits(c, q)
    ensures IsDict(ups)
  {
    ParsedUpTo(q, c, |Patterns|)
  }

  /** One turn of the parser's loop: the assignments pattern `p` makes when it matched. */
  method AssignCaptures(updates: Updates, q: string, captures: Captures, p: Pattern)
    returns (r: Updates)
    requires Fits(captures, q)
    ensures r == PutAll(updates, PatternEntries(q, captures, p))
  {
    r := updates;
    match p
    case ProductNamePattern =>
      if captures.rename.Some? {
        r := Put(r, "old_name", StrV(Captured(q, captures.rename.value.oldName)));
        r := Put(r, "ProductName", StrV(Captured(q, captures.rename.value.newName)));
        PutAllTwo(updates, Entry("old_name", StrV(Captured(q, captures.rename.value.oldName))),
                  Entry("ProductName", StrV(Captured(q, captures.rename.value.newName))));
      }
    case CurrentStockPattern =>
      if captures.currentStock.Some? {
        r := Put(r, "CurrentStock", IntV(DigitsValue(Captured(q, captures.currentStock.value))));
        PutAllOne(updates, "CurrentStock", IntV(DigitsValue(Captured(q, captures.currentStock.value))));
      }
    case LastSoldDatePattern =>
      if captures.lastSoldDate.Some? {
        r := Put(r, "LastSoldDate", StrV(Captured(q, captures.lastSoldDate.value)));
        PutAllOne(updates, "LastSoldDate", StrV(Captured(q, captures.lastSoldDate.value)));
      }
    case ExpiryDatePattern =>
      if captures.expiryDate.Some? {
        r := Put(r, "ExpiryDate", StrV(Captured(q, captures.expiryDate.value)));
        PutAllOne(updates, "ExpiryDate", StrV(Captured(q, captures.expiryDate.value)));
      }
    case SalesLastMonthPattern =>
      if captures.salesLastMonth.Some? {
        r := Put(r, "SalesLastMonth", IntV(DigitsValue(Captured(q, captures.salesLastMonth.value))));
        PutAllOne(updates, "SalesLastMonth", IntV(DigitsValue(Captured(q, captures.salesLastMonth.value))));
      }
    case LocationPattern =>
      if captures.location.Some? {
        r := Put(r, "Location", StrV(Captured(q, captures.location.value)));
        PutAllOne(updates, "Location", StrV(Captured(q, captures.location.value)));
      }
    case FactoryDistancePattern =>
      if captures.factoryDistance.Some? {
        r := Put(r, "FactoryDistance", IntV(DigitsValue(Captured(q, captures.factoryDistance.value))));
        PutAllOne(updates, "FactoryDistance", IntV(DigitsValue(Captured(q, captures.factoryDistance.value))));
      }
  }

  /** `parse_update_query`: lower-cases and strips the command, then matches it. */
  method ParseUpdateQuery(query: string, captures: Captures) returns (updates: Updates)
    requires Fits(captures, Normalize(query))
    ensures updates == ParsedUpdates(Normalize(query), captures)
  {
    updates := MatchPatterns(Normalize(query), captures);
  }

  /** The matching half of `parse_update_query`: records the ProductID, then tries each field
      pattern in turn and assigns what it captured. */
  method MatchPatterns(q: string, captures: Captures) returns (updates: Updates)
    requires Fits(captures, q)
    ensures updates == ParsedUpdates(q, captures)
  {
    updates := [];
    if captures.productId.Some? {
      updates := Put(updates, "ProductID", IntV(DigitsValue(Captured(q, captures.productId.value))));
    }
    for n := 0 to |Patterns|
      invariant updates == ParsedUpTo(q, captures, n)
    {
      updates := AssignCaptures(updates, q, captures, Patterns[n]);
      ParsedStep(q, captures, n);
    }
  }

  lemma ParsedStep(q: string, c: Captures, n: nat)
    requires Fits(c, q) && n < |Patterns|
    ensures ParsedUpTo(q, c, n + 1) == PutAll(ParsedUpTo(q, c, n), PatternEntries(q, c, Patterns[n]))
  {
  }

  // ---------------------------------------------------------------------------------------
  // What a parsed command holds
  // ---------------------------------------------------------------------------------------

  /** What a parsed command holds under each key, read off the captures directly: the
      ProductID and the numeric fields as the numbers their digits spell, the rename pair and
      the other fields as the captured text, and nothing under any other key. */
  function Expected(q: string, c: Captures, k: string): (v: Option<Value>)
    requires Fits(c, q)
    ensures v.Some? ==> k == "ProductID" || PatternOf(k).Some?
    ensures v.Some? && v.value.IntV? ==> v.value.i >= 0
  {
    if k == "ProductID" then
      if c.productId.Some? then Some(IntV(DigitsValue(Captured(q, c.productId.value)))) else None
    else if k == "old_name" then
      if c.rename.Some? then Some(StrV(Captured(q, c.rename.value.oldName))) else None
    else if k == "ProductName" then
      if c.rename.Some? then Some(StrV(Captured(q, c.rename.value.newName))) else None
    else if k == "CurrentStock" then
      if c.currentStock.Some? then Some(IntV(DigitsValue(Captured(q, c.currentStock.value)))) else None
    else if k == "LastSoldDate" then
      if c.lastSoldDate.Some? then Some(StrV(Captured(q, c.lastSoldDate.value))) else None
    else if k == "ExpiryDate" then
      if c.expiryDate.Some? then Some(StrV(Captured(q, c.expiryDate.value))) else None
    else if k == "SalesLastMonth" then
      if c.salesLastMonth.Some? then Some(IntV(DigitsValue(Captured(q, c.salesLastMonth.value)))) else None
    else if k == "Location" then
      if c.location.Some? then Some(StrV(Captured(q, c.location.value))) else None
    else if k == "FactoryDistance" then
      if c.factoryDistance.Some? then Some(IntV(DigitsValue(Captured(q, c.factoryDistance.value)))) else None
    else None
  }

  /** The assignments of one pattern give each key it owns its expected value. */
  lemma PatternMeaning(q: string, c: Captures, p: Pattern, k: string)
    requires Fits(c, q) && PatternOf(k) == Some(p)
    ensures Lookup(PatternEntries(q, c, p), k) == Expected(q, c, k)
  {
    match p
    case ProductNamePattern =>
      assert k == "old_name" || k == "ProductName";
    case CurrentStockPattern => NumberPatternMeaning(q, c, p, k);
    case LastSoldDatePattern => TextPatternMeaning(q, c, p, k);
    case ExpiryDatePattern => TextPatternMeaning(q, c, p, k);
    case SalesLastMonthPattern => NumberPatternMeaning(q, c, p, k);
    case LocationPattern => TextPatternMeaning(q, c, p, k);
    case FactoryDistancePattern => NumberPatternMeaning(q, c, p, k);
  }

  /** The numeric patterns store the number their digits spell. */
  lemma NumberPatternMeaning(q: string, c: Captures, p: Pattern, k: string)
    requires Fits(c, q) && PatternOf(k) == Some(p)
    requires p == CurrentStockPattern || p == SalesLastMonthPattern || p == FactoryDistancePattern
    ensures Lookup(PatternEntries(q, c, p), k) == Expected(q, c, k)
  {
    if p == CurrentStockPattern {
      assert k == "CurrentStock";
    } else if p == SalesLastMonthPattern {
      assert k == "SalesLastMonth";
    } else {
      assert k == "FactoryDistance";
    }
  }

  /** The date and location patterns store the captured text. */
  lemma TextPatternMeaning(q: string, c: Captures, p: Pattern, k: string)
    requires Fits(c, q) && PatternOf(k) == Some(p)
    requires p == LastSoldDatePattern || p == ExpiryDatePattern || p == LocationPattern
    ensures Lookup(PatternEntries(q, c, p), k) == Expected(q, c, k)
  {
    if p == LastSoldDatePattern {
      assert k == "LastSoldDate";
    } else if p == ExpiryDatePattern {
      assert k == "ExpiryDate";
    } else {
      assert k == "Location";
    }
  }

  /** The parser's dictionary holds under every key exactly the value the captures call for:
      the ProductID and the numbers under `ProductID`, `CurrentStock`, `SalesLastMonth` and
      `FactoryDistance`, the texts under `old_name`, `ProductName`, `LastSoldDate`,
      `ExpiryDate` and `Location`, each present exactly when its pattern matched. */
  lemma ParsedMeaning(q: string, c: Captures)
    requires Fits(c, q)
    ensures forall k :: Lookup(ParsedUpdates(q, c), k) == Expected(q, c, k)
  {
    forall k ensures Lookup(ParsedUpdates(q, c), k) == Expected(q, c, k) {
      AssignedMeaning(q, c, k);
    }
  }

  /** Once every pattern has run, what a key holds is what the captures call for. */
  lemma AssignedMeaning(q: string, c: Captures, k: string)
    requires Fits(c, q)
    ensures AssignedUpTo(q, c, |Patterns|, k) == Expected(q, c, k)
  {
    match PatternOf(k)
    case Some(p) =>
      PatternMeaning(q, c, p, k);
    case None =>
      if k != "ProductID" {
        assert !HasKey(IdEntries(q, c), k);
      }
  }

  /** A dictionary that holds the expected values has keys from the parser's list only. */
  lemma ExpectedKeys(ups: Updates, q: string, c: Captures, k: string)
    requires Fits(c, q) && forall k :: Lookup(ups, k) == Expected(q, c, k)
    requires HasKey(ups, k)
    ensures k == "ProductID" || PatternOf(k).Some?
  {
    assert Lookup(ups, k) == Expected(q, c, k);
  }

  /** No other key is ever produced; in particular not the column name `FactoryDistanceKM`. */
  lemma ParsedKeys(q: string, c: Captures)
    requires Fits(c, q)
    ensures forall k :: HasKey(ParsedUpdates(q, c), k) ==> k == "ProductID" || PatternOf(k).Some?
    ensures !HasKey(ParsedUpdates(q, c), "FactoryDistanceKM")
  {
    ParsedMeaning(q, c);
    forall k | HasKey(ParsedUpdates(q, c), k)
      ensures k == "ProductID" || PatternOf(k).Some?
    {
      ExpectedKeys(ParsedUpdates(q, c), q, c, k);
    }
    assert Expected(q, c, "FactoryDistanceKM") == None;
  }

  /** No pattern matched. */
  predicate NoCaptures(c: Captures) {
    c == Captures(None, None, None, None, None, None, None, None)
  }

  /** A key that some capture fills. */
  lemma CapturedKey(q: string, c: Captures) returns (k: string)
    requires Fits(c, q) && !NoCaptures(c)
    ensures Expected(q, c, k).Some?
  {
    if c.productId.Some? { k := "ProductID"; }
    else if c.rename.Some? { k := "old_name"; }
    else if c.currentStock.Some? { k := "CurrentStock"; }
    else if c.lastSoldDate.Some? { k := "LastSoldDate"; }
    else if c.expiryDate.Some? { k := "ExpiryDate"; }
    else if c.salesLastMonth.Some? { k := "SalesLastMonth"; }
    else if c.location.Some? { k := "Location"; }
    else { k := "FactoryDistance"; }
  }

  /** A dictionary that holds the expected values is empty exactly when nothing was
      captured. */
  lemma ExpectedEmpty(ups: Updates, q: string, c: Captures)
    requires Fits(c, q) && forall k :: Lookup(ups, k) == Expected(q, c, k)
    ensures ups == [] <==> NoCaptures(c)
  {
    if ups != [] {
      var k := ups[0].key;
      assert HasKey(ups, k);
      assert Lookup(ups, k) == Expected(q, c, k);
    }
    if !NoCaptures(c) {
      var k := CapturedKey(q, c);
      assert Lookup(ups, k) == Expected(q, c, k);
    }
  }

  /** A command parses to an empty dictionary exactly when no pattern matched. */
  lemma ParsedEmpty(q: string, c: Captures)
    requires Fits(c, q)
    ensures ParsedUpdates(q, c) == [] <==> NoCaptures(c)
  {
    ParsedMeaning(q, c);
    ExpectedEmpty(ParsedUpdates(q, c), q, c);
  }

  /** A capture of a text without upper-case letters has none either. */
  lemma CapturedIsLowerCase(q: string, sp: Span)
    requires IsLowerCase(q) && sp.start <= sp.end <= |q|
    ensures IsLowerCase(Captured(q, sp))
  {
  }

  /** Every text the captures call for is lower case when the command is. */
  lemma ExpectedValueIsLowerCase(q: string, c: Captures, k: string)
    requires Fits(c, q) && IsLowerCase(q)
    requires Expected(q, c, k).Some? && Expected(q, c, k).value.StrV?
    ensures IsLowerCase(Expected(q, c, k).value.s)
  {
    if k == "old_name" {
      CapturedIsLowerCase(q, c.rename.value.oldName);
    } else if k == "ProductName" {
      CapturedIsLowerCase(q, c.rename.value.newName);
    } else if k == "LastSoldDate" {
      CapturedIsLowerCase(q, c.lastSoldDate.value);
    } else if k == "ExpiryDate" {
      CapturedIsLowerCase(q, c.expiryDate.value);
    } else if k == "Location" {
      CapturedIsLowerCase(q, c.location.value);
    }
  }

  /** In a dictionary that holds the expected values for a lower-case command, every text
      is lower case. */
  lemma ExpectedTextIsLowerCase(ups: Updates, q: string, c: Captures)
    requires Fits(c, q) && IsLowerCase(q) && IsDict(ups)
    requires forall k :: Lookup(ups, k) == Expected(q, c, k)
    ensures forall e :: e in ups && e.value.StrV? ==> IsLowerCase(e.value.s)
  {
    forall e | e in ups && e.value.StrV?
      ensures IsLowerCase(e.value.s)
    {
      var i :| 0 <= i < |ups| && ups[i] == e;
      LookupEntry(ups, i);
      assert Lookup(ups, e.key) == Expected(q, c, e.key);
      ExpectedValueIsLowerCase(q, c, e.key);
    }
  }

  /** Every text value of a parsed command is lower case, because the command is lower-cased
      before matching: a renamed product gets a lower-case name. */
  lemma ParsedTextIsLowerCase(query: string, c: Captures)
    requires Fits(c, Normalize(query))
    ensures forall e :: e in ParsedUpdates(Normalize(query), c) && e.value.StrV? ==> IsLowerCase(e.value.s)
  {
    ParsedMeaning(Normalize(query), c);
    ExpectedTextIsLowerCase(ParsedUpdates(Normalize(query), c), Normalize(query), c);
  }

  // ---------------------------------------------------------------------------------------
  // Applying a dictionary to the table
  // ---------------------------------------------------------------------------------------

  /** How `apply_data_updates` picks the rows to change. */
  datatype Selection = ById(id: Value) | ByName(name: Value) | NoSelector

  /** ProductID first, then `old_name`, else nothing. */
  function SelectionOf(ups: Updates): (sel: Selection)
    ensures HasKey(ups, "ProductID") ==> sel == ById(Lookup(ups, "ProductID").value)
    ensures !HasKey(ups, "ProductID") && HasKey(ups, "old_name") ==> sel == ByName(Lookup(ups, "old_name").value)
    ensures sel.NoSelector? <==> !HasKey(ups, "ProductID") && !HasKey(ups, "old_name")
  {
    match Lookup(ups, "ProductID")
    case Some(id) => ById(id)
    case None =>
      match Lookup(ups, "old_name")
      case Some(name) => ByName(name)
      case None => NoSelector
  }

  /** `updates['old_name'].lower()` needs a text; Python stops with an error otherwise. */
  predicate Selectable(ups: Updates) {
    SelectionOf(ups).ByName? ==> SelectionOf(ups).name.StrV?
  }

  /** One entry of the selection mask: equal ProductID, or equal names once both are
      lower-cased (a cell that is not a text never matches a name). */
  predicate RowMatches(row: Row, sel: Selection)
    requires sel.ByName? ==> sel.name.StrV?
    ensures RowMatches(row, sel) ==> !sel.NoSelector?
    ensures RowMatches(row, sel) && sel.ById? ==> "ProductID" in row
    ensures RowMatches(row, sel) && sel.ByName? ==> "ProductName" in row && row["ProductName"].StrV?
  {
    match sel
    case ById(id) => "ProductID" in row && row["ProductID"] == id
    case ByName(name) =>
      "ProductName" in row && row["ProductName"].StrV? && Lower(row["ProductName"].s) == Lower(name.s)
    case NoSelector => false
  }

  /** A name selects the same rows in any letter case: the name is compared lower-cased. */
  lemma NameMatchIgnoresCase(row: Row, name: string)
    ensures RowMatches(row, ByName(StrV(name))) <==> RowMatches(row, ByName(StrV(Lower(name))))
  {
    LowerOfLowerCase(Lower(name));
  }

  /** The selection mask over the table. */
  function Mask(rows: seq<Row>, sel: Selection): (mask: seq<bool>)
    requires sel.ByName? ==> sel.name.StrV?
    ensures |mask| == |rows| && forall i :: 0 <= i < |rows| ==> mask[i] == RowMatches(rows[i], sel)
  {
    seq(|rows|, i requires 0 <= i < |rows| => RowMatches(rows[i], sel))
  }

  /** A row after the dictionary's column entries are written into it, one after the other. */
  function UpdateRow(row: Row, ups: Updates): (r: Row)
    ensures row.Keys == ColumnSet ==> r.Keys == ColumnSet
  {
    if ups == [] then row
    else
      var e := ups[|ups| - 1];
      var before := UpdateRow(row, ups[..|ups| - 1]);
      if IsColumn(e.key) then before[e.key := e.value] else before
  }

  /** `str(value)`. */
  function Show(v: Value): string {
    match v
    case IntV(i) => IntToString(i)
    case StrV(s) => s
  }

  /** `f"{key}: {value}"`. */
  function Describe(e: Entry): string {
    e.key + ": " + Show(e.value)
  }

  /** The descriptions of the column entries, in dictionary order. */
  function Descriptions(ups: Updates): (ds: seq<string>)
    ensures |ds| <= |ups|
  {
    if ups == [] then []
    else
      var e := ups[|ups| - 1];
      Descriptions(ups[..|ups| - 1]) + (if IsColumn(e.key) then [Describe(e)] else [])
  }

  const NoDataMessage := "No data to update"
  const CannotIdentifyMessage := "Could not identify which product to update." + " Please specify ProductID or product name."
  const NotFoundMessage := "Product not found in inventory"
  const SuccessPrefix := "Successfully updated: "
  const NoValidUpdatesMessage := "No valid updates found"

  /** The table `apply_data_updates` returns: every row that matches the selection is
      updated and every other row is kept; with no selector or no match nothing is updated. */
  function AppliedRows(rows: seq<Row>, ups: Updates): (r: seq<Row>)
    requires rows != [] ==> Selectable(ups)
    ensures |r| == |rows|
    ensures forall i :: 0 <= i < |rows| ==>
      r[i] == if RowMatches(rows[i], SelectionOf(ups)) then UpdateRow(rows[i], ups) else rows[i]
  {
    if rows == [] then rows
    else
      var sel := SelectionOf(ups);
      if sel.NoSelector? then rows
      else
        var mask := Mask(rows, sel);
        if true !in mask then rows
        else seq(|rows|, i requires 0 <= i < |rows| => if mask[i] then UpdateRow(rows[i], ups) else rows[i])
  }

  /** The message `apply_data_updates` returns. */
  function ApplyMessage(rows: seq<Row>, ups: Updates): (m: string)
    requires rows != [] ==> Selectable(ups)
    ensures rows == [] ==> m == NoDataMessage
    ensures || m in {NoDataMessage, CannotIdentifyMessage, NotFoundMessage, NoValidUpdatesMessage}
            || (Descriptions(ups) != [] && m == SuccessPrefix + Join(", ", Descriptions(ups)))
  {
    if rows == [] then NoDataMessage
    else
      var sel := SelectionOf(ups);
      if sel.NoSelector? then CannotIdentifyMessage
      else if true !in Mask(rows, sel) then NotFoundMessage
      else if Descriptions(ups) != [] then SuccessPrefix + Join(", ", Descriptions(ups))
      else NoValidUpdatesMessage
  }

  /** `df.loc[mask, key] = value`: the cell `key` of every selected row takes the value. */
  function WriteColumn(rows: seq<Row>, mask: seq<bool>, key: string, value: Value): (r: seq<Row>)
    requires |mask| == |rows|
    ensures |r| == |rows|
    ensures forall i :: 0 <= i < |rows| ==> r[i] == if mask[i] then rows[i][key := value] else rows[i]
  {
    seq(|rows|, i requires 0 <= i < |rows| => if mask[i] then rows[i][key := value] else rows[i])
  }

  /** What pressing "Update Data" leads to. */
  datatype Outcome =
    | Ignored                      // the command is blank: nothing happens
    | NotParsed                    // "Could not parse the update command"
    | Unchanged(message: string)   // the table came back equal: a warning shows the message
    | Saved(message: string)       // the changed table was written: the message shows as success
    | SaveFailed                   // the changed table could not be written

  /** The submit handler once the command is parsed: apply the dictionary to a copy of the
      table, and write the copy back when it differs and the write succeeds. The result
      pairs the outcome with the table afterwards. The table only ever changes together
      with a success message. */
  function SubmitParsed(rows: seq<Row>, ups: Updates, saveSucceeds: bool): (r: (Outcome, seq<Row>))
    requires rows != [] ==> Selectable(ups)
    ensures r.0.Saved? ==> r.1 != rows && IsPrefix(SuccessPrefix, r.0.message)
    ensures r.0.Saved? ==> r.1 == AppliedRows(rows, ups) && r.0.message == ApplyMessage(rows, ups)
    ensures !r.0.Saved? ==> r.1 == rows
    ensures r.0 != Ignored && (r.0 == NotParsed <==> ups == [])
    ensures ups != [] && AppliedRows(rows, ups) == rows ==> r.0 == Unchanged(ApplyMessage(rows, ups))
    ensures ups != [] && AppliedRows(rows, ups) != rows ==> (r.0.Saved? <==> saveSucceeds)
    ensures ups != [] && AppliedRows(rows, ups) != rows && !saveSucceeds ==> r.0 == SaveFailed
  {
    if ups == [] then (NotParsed, rows)
    else
      var applied := AppliedRows(rows, ups);
      if applied == rows then (Unchanged(ApplyMessage(rows, ups)), rows)
      else
        ChangeMeansSuccess(rows, ups);
        if saveSucceeds then (Saved(ApplyMessage(rows, ups)), applied) else (SaveFailed, rows)
  }

  /** The submit handler: a blank command is ignored, any other is parsed and submitted. */
  function Submit(rows: seq<Row>, query: string, c: Captures, saveSucceeds: bool): (r: (Outcome, seq<Row>))
    requires Fits(c, Normalize(query))
    ensures Selectable(ParsedUpdates(Normalize(query), c))
    ensures r.0 == Ignored <==> Strip(query) == []
    ensures !r.0.Saved? ==> r.1 == rows
    ensures r.0.Saved? ==> && r.1 == AppliedRows(rows, ParsedUpdates(Normalize(query), c))
                           && r.0.message == ApplyMessage(rows, ParsedUpdates(Normalize(query), c))
    ensures var ups := ParsedUpdates(Normalize(query), c);
      Strip(query) != [] && ups != [] && AppliedRows(rows, ups) != rows ==> (r.0.Saved? <==> saveSucceeds)
  {
    ParsedSelectable(Normalize(query), c);
    if Strip(query) == [] then (Ignored, rows)
    else
      SubmitParsed(rows, ParsedUpdates(Normalize(query), c), saveSucceeds)
  }

  /** The inventory table, one row per product, addressed by column name. */
  class Table {
    var rows: seq<Row>

    constructor (rows: seq<Row>)
      ensures this.rows == rows
    {
      this.rows := rows;
    }

    /** `apply_data_updates`: gives up on an empty table, an unidentified product or a
        product that is not there; otherwise writes every column entry of the dictionary
        into every selected row and lists what it wrote. */
    method ApplyDataUpdates(updates: Updates) returns (message: string)
      requires rows != [] ==> Selectable(updates)
      modifies this
      ensures rows == AppliedRows(old(rows), updates)
      ensures message == ApplyMessage(old(rows), updates)
    {
      if |rows| == 0 {
        return NoDataMessage;
      }
      var selection := SelectionOf(updates);
      if selection.NoSelector? {
        return CannotIdentifyMessage;
      }
      var mask := Mask(rows, selection);
      if true !in mask {
        return NotFoundMessage;
      }
      ghost var original := rows;
      var updatedFields: seq<string> := [];
      for j := 0 to |updates|
        invariant |rows| == |original|
        invariant forall i :: 0 <= i < |rows| ==>
                    rows[i] == if mask[i] then UpdateRow(original[i], updates[..j]) else original[i]
        invariant updatedFields == Descriptions(updates[..j])
      {
        var entry := updates[j];
        assert updates[..j + 1][..j] == updates[..j];
        if IsColumn(entry.key) {
          rows := WriteColumn(rows, mask, entry.key, entry.value);
          updatedFields := updatedFields + [Describe(entry)];
        }
      }
      assert updates[..|updates|] == updates;
      if |updatedFields| > 0 {
        message := SuccessPrefix + Join(", ", updatedFields);
      } else {
        message := NoValidUpdatesMessage;
      }
    }

    /** The submit handler on this table: the outcome and the new table are those of
        `Submit`. */
    /** The rest of the submit handler once the command is parsed: nothing to do for an
        empty dictionary; otherwise the dictionary is applied to a copy of the table, and
        the copy replaces the table only when it differs and the save succeeds. */
    method SubmitUpdates(updates: Updates, saveSucceeds: bool) returns (outcome: Outcome)
      requires rows != [] ==> Selectable(updates)
      modifies this
      ensures (outcome, rows) == SubmitParsed(old(rows), updates, saveSucceeds)
    {
      if updates == [] {
        return NotParsed;
      }
      var copy := new Table(rows);
      var message := copy.ApplyDataUpdates(updates);
      if copy.rows == rows {
        return Unchanged(message);
      }
      if saveSucceeds {
        rows := copy.rows;
        return Saved(message);
      }
      return SaveFailed;
    }

    /** The submit handler: ignores a blank command, parses any other and submits what the
        parser found. */
    method SubmitUpdate(query: string, captures: Captures, saveSucceeds: bool) returns (outcome: Outcome)
      requires Fits(captures, Normalize(query))
      modifies this
      ensures (outcome, rows) == Submit(old(rows), query, captures, saveSucceeds)
    {
      if Strip(query) == [] {
        return Ignored;
      }
      var updates := ParseUpdateQuery(query, captures);
      ParsedSelectable(Normalize(query), captures);
      outcome := SubmitUpdates(updates, saveSucceeds);
    }
  }

  // ---------------------------------------------------------------------------------------
  // What applying a dictionary does
  // ---------------------------------------------------------------------------------------

  /** The lookup in a dictionary with one more entry at the end. */
  lemma {:induction false} LookupSnoc(ups: Updates, e: Entry, k: string)
    ensures Lookup(ups + [e], k) ==
      if HasKey(ups, k) then Lookup(ups, k) else if e.key == k then Some(e.value) else None
  {
    if ups != [] {
      assert (ups + [e])[1..] == ups[1..] + [e];
      LookupSnoc(ups[1..], e, k);
      assert HasKey(ups, k) <==> ups[0].key == k || HasKey(ups[1..], k);
    }
  }

  /** Each cell of an updated row: a column the dictionary names takes the dictionary's
      value, every other cell keeps its value, and no cell appears or disappears except the
      columns written. */
  lemma {:induction false} UpdateRowCell(row: Row, ups: Updates, k: string)
    requires IsDict(ups)
    ensures k in UpdateRow(row, ups) <==> k in row || (IsColumn(k) && HasKey(ups, k))
    ensures k in UpdateRow(row, ups) ==>
      UpdateRow(row, ups)[k] == if IsColumn(k) && HasKey(ups, k) then Lookup(ups, k).value else row[k]
    decreases |ups|
  {
    if ups != [] {
      var init := ups[..|ups| - 1];
      var e := ups[|ups| - 1];
      assert ups == init + [e];
      assert IsDict(init);
      UpdateRowCell(row, init, k);
      LookupSnoc(init, e, k);
      if e.key == k {
        assert !HasKey(init, k);
      }
    }
  }

  /** Writing the same dictionary into a row twice gives the row of writing it once. */
  lemma UpdateRowIdempotent(row: Row, ups: Updates)
    requires IsDict(ups)
    ensures UpdateRow(UpdateRow(row, ups), ups) == UpdateRow(row, ups)
  {
    var once := UpdateRow(row, ups);
    var twice := UpdateRow(once, ups);
    forall k ensures k in twice <==> k in once {
      UpdateRowCell(row, ups, k);
      UpdateRowCell(once, ups, k);
    }
    forall k | k in twice ensures twice[k] == once[k] {
      UpdateRowCell(row, ups, k);
      UpdateRowCell(once, ups, k);
    }
  }

  /** A dictionary without column entries leaves a row as it is and describes nothing. */
  lemma {:induction false} NoColumnEntries(row: Row, ups: Updates)
    requires Descriptions(ups) == []
    ensures UpdateRow(row, ups) == row
    ensures forall j :: 0 <= j < |ups| ==> !IsColumn(ups[j].key)
    decreases |ups|
  {
    if ups != [] {
      var init := ups[..|ups| - 1];
      NoColumnEntries(row, init);
      forall j | 0 <= j < |ups| ensures !IsColumn(ups[j].key) {
        if j < |ups| - 1 { assert ups[j] == init[j]; }
      }
    }
  }

  /** Every column entry of the dictionary is described, in dictionary order. */
  lemma {:induction false} DescriptionsCover(ups: Updates, j: nat)
    requires j < |ups| && IsColumn(ups[j].key)
    ensures Describe(ups[j]) in Descriptions(ups)
    decreases |ups|
  {
    var init := ups[..|ups| - 1];
    if j < |ups| - 1 {
      assert ups[j] == init[j];
      DescriptionsCover(init, j);
    }
  }

  /** Each cell of the table `apply_data_updates` returns: a selected row takes the
      dictionary's value in every column the dictionary names, and every other cell, of a
      selected row or not, is unchanged. The early exits change nothing, since with no
      selector or no match no row is selected. */
  lemma AppliedCells(rows: seq<Row>, ups: Updates, i: nat, k: string)
    requires IsDict(ups) && Selectable(ups) && i < |rows|
    ensures |AppliedRows(rows, ups)| == |rows|
    ensures var r := AppliedRows(rows, ups)[i];
      var written := RowMatches(rows[i], SelectionOf(ups)) && IsColumn(k) && HasKey(ups, k);
      && (k in r <==> k in rows[i] || written)
      && (k in r ==> r[k] == if written then Lookup(ups, k).value else rows[i][k])
  {
    UpdateRowCell(rows[i], ups, k);
    var sel := SelectionOf(ups);
    if !sel.NoSelector? && true !in Mask(rows, sel) {
      assert !Mask(rows, sel)[i];
    }
  }

  predicate NoRowMatches(rows: seq<Row>, sel: Selection)
    requires sel.ByName? ==> sel.name.StrV?
  {
    forall i :: 0 <= i < |rows| ==> !RowMatches(rows[i], sel)
  }

  /** Applying a dictionary to a table read from records keeps every row's nine columns and
      adds none: only column entries are written, into cells that exist. */
  lemma AppliedKeepsColumns(records: seq<Record>, ups: Updates)
    requires records != [] ==> Selectable(ups)
    ensures |AppliedRows(TableOf(records), ups)| == |records|
    ensures forall i :: 0 <= i < |records| ==> AppliedRows(TableOf(records), ups)[i].Keys == ColumnSet
  {
    var rows := TableOf(records);
    forall i | 0 <= i < |records|
      ensures AppliedRows(rows, ups)[i].Keys == ColumnSet
    {
      assert rows[i].Keys == ColumnSet;
    }
  }

  /** The early exits of `apply_data_updates` return the table as it was: an empty table
      with "No data to update", a dictionary with neither selector with the request to name
      the product, and a selection that matches no row with "Product not found". */
  lemma EarlyExits(rows: seq<Row>, ups: Updates)
    requires rows != [] ==> Selectable(ups)
    ensures rows == [] ==> AppliedRows(rows, ups) == rows && ApplyMessage(rows, ups) == NoDataMessage
    ensures rows != [] && SelectionOf(ups).NoSelector? ==>
      AppliedRows(rows, ups) == rows && ApplyMessage(rows, ups) == CannotIdentifyMessage
    ensures rows != [] && !SelectionOf(ups).NoSelector? && NoRowMatches(rows, SelectionOf(ups)) ==>
      AppliedRows(rows, ups) == rows && ApplyMessage(rows, ups) == NotFoundMessage
  {
    if rows != [] && !SelectionOf(ups).NoSelector? {
      MaskSelects(rows, SelectionOf(ups));
    }
  }

  /** Applying the same dictionary twice gives the table of applying it once: a row that was
      not selected is unchanged and so stays unselected, and a selected row already holds
      the values. */
  lemma AppliedIdempotent(rows: seq<Row>, ups: Updates)
    requires IsDict(ups) && Selectable(ups)
    ensures AppliedRows(AppliedRows(rows, ups), ups) == AppliedRows(rows, ups)
  {
    var once := AppliedRows(rows, ups);
    var sel := SelectionOf(ups);
    if rows != [] && !sel.NoSelector? && true in Mask(rows, sel) {
      var twice := AppliedRows(once, ups);
      assert |twice| == |once|;
      forall i | 0 <= i < |once| ensures twice[i] == once[i] {
        UpdateRowIdempotent(rows[i], ups);
        if !RowMatches(rows[i], sel) {
          assert once[i] == rows[i];
        }
      }
    }
  }

  /** Some row is selected exactly when some row matches. */
  lemma MaskSelects(rows: seq<Row>, sel: Selection)
    requires sel.ByName? ==> sel.name.StrV?
    ensures true in Mask(rows, sel) <==> exists i :: 0 <= i < |rows| && RowMatches(rows[i], sel)
  {
    var mask := Mask(rows, sel);
    if true in mask {
      var i :| 0 <= i < |mask| && mask[i];
      assert RowMatches(rows[i], sel);
    }
    if exists i :: 0 <= i < |rows| && RowMatches(rows[i], sel) {
      var i :| 0 <= i < |rows| && RowMatches(rows[i], sel);
      assert mask[i];
    }
  }

  /** Something is described exactly when the dictionary has a column entry. */
  lemma DescriptionsNonEmpty(ups: Updates)
    ensures Descriptions(ups) != [] <==> exists j :: 0 <= j < |ups| && IsColumn(ups[j].key)
  {
    if exists j :: 0 <= j < |ups| && IsColumn(ups[j].key) {
      var j :| 0 <= j < |ups| && IsColumn(ups[j].key);
      DescriptionsCover(ups, j);
    } else if Descriptions(ups) != [] {
      var d := Descriptions(ups)[0];
      NoDescriptionWithoutColumn(ups, d);
    }
  }

  /** The message reports success exactly when the table is not empty, the product is
      identified and found, and the dictionary has a column entry. */
  lemma SuccessMessage(rows: seq<Row>, ups: Updates)
    requires rows != [] ==> Selectable(ups)
    ensures IsPrefix(SuccessPrefix, ApplyMessage(rows, ups)) <==>
      && rows != []
      && !SelectionOf(ups).NoSelector?
      && (exists i :: 0 <= i < |rows| && RowMatches(rows[i], SelectionOf(ups)))
      && (exists j :: 0 <= j < |ups| && IsColumn(ups[j].key))
  {
    SuccessIsLast(rows, ups);
    if rows != [] && !SelectionOf(ups).NoSelector? {
      MaskSelects(rows, SelectionOf(ups));
      DescriptionsNonEmpty(ups);
    }
  }

  /** The failure messages do not start the way the success message does. */
  lemma FailuresStartApart()
    ensures forall m :: m in {NoDataMessage, CannotIdentifyMessage, NotFoundMessage, NoValidUpdatesMessage} ==>
      m != [] && m[0] != SuccessPrefix[0]
  {
  }

  /** Only the last branch of `apply_data_updates` produces a message that starts like a
      success. */
  lemma SuccessIsLast(rows: seq<Row>, ups: Updates)
    requires rows != [] ==> Selectable(ups)
    ensures IsPrefix(SuccessPrefix, ApplyMessage(rows, ups)) <==>
      && rows != []
      && !SelectionOf(ups).NoSelector?
      && true in Mask(rows, SelectionOf(ups))
      && Descriptions(ups) != []
  {
    var msg := ApplyMessage(rows, ups);
    assert SuccessPrefix[0] == 'S';
    if rows != [] && !SelectionOf(ups).NoSelector? && true in Mask(rows, SelectionOf(ups))
       && Descriptions(ups) != [] {
      assert msg[..|SuccessPrefix|] == SuccessPrefix;
    } else {
      FailuresStartApart();
      assert msg in {NoDataMessage, CannotIdentifyMessage, NotFoundMessage, NoValidUpdatesMessage};
    }
  }

  /** A success message lists every column entry the dictionary has. */
  lemma SuccessListsWrites(rows: seq<Row>, ups: Updates, j: nat)
    requires rows != [] ==> Selectable(ups)
    requires IsPrefix(SuccessPrefix, ApplyMessage(rows, ups))
    requires j < |ups| && IsColumn(ups[j].key)
    ensures Contains(ApplyMessage(rows, ups), Describe(ups[j]))
  {
    SuccessIsLast(rows, ups);
    var ds := Descriptions(ups);
    DescriptionsCover(ups, j);
    var m :| 0 <= m < |ds| && ds[m] == Describe(ups[j]);
    JoinContainsPart(", ", ds, m);
    ContainsExtendLeft(SuccessPrefix, Join(", ", ds), Describe(ups[j]));
  }

  /** Every description comes from a column entry. */
  lemma {:induction false} NoDescriptionWithoutColumn(ups: Updates, d: string)
    requires d in Descriptions(ups)
    ensures exists j :: 0 <= j < |ups| && IsColumn(ups[j].key)
    decreases |ups|
  {
    var init := ups[..|ups| - 1];
    if d in Descriptions(init) {
      NoDescriptionWithoutColumn(init, d);
      var j :| 0 <= j < |init| && IsColumn(init[j].key);
      assert ups[j] == init[j];
    } else {
      assert IsColumn(ups[|ups| - 1].key);
    }
  }

  /** The table only ever changes together with a success message. */
  lemma ChangeMeansSuccess(rows: seq<Row>, ups: Updates)
    requires rows != [] ==> Selectable(ups)
    requires AppliedRows(rows, ups) != rows
    ensures IsPrefix(SuccessPrefix, ApplyMessage(rows, ups))
  {
    var sel := SelectionOf(ups);
    if Descriptions(ups) == [] {
      forall i | 0 <= i < |rows| ensures UpdateRow(rows[i], ups) == rows[i] {
        NoColumnEntries(rows[i], ups);
      }
    }
  }

  // ---------------------------------------------------------------------------------------
  // What a parsed command does to the table
  // ---------------------------------------------------------------------------------------

  /** A dictionary holding the expected values names a product by a text, if by name. */
  lemma ExpectedSelectable(ups: Updates, q: string, c: Captures)
    requires Fits(c, q) && forall k :: Lookup(ups, k) == Expected(q, c, k)
    ensures Selectable(ups)
  {
    assert Lookup(ups, "ProductID") == Expected(q, c, "ProductID");
    assert Lookup(ups, "old_name") == Expected(q, c, "old_name");
  }

  /** A parsed command can always be applied: a product named by the rename pattern is
      named by a text. */
  lemma ParsedSelectable(q: string, c: Captures)
    requires Fits(c, q)
    ensures Selectable(ParsedUpdates(q, c))
  {
    ParsedMeaning(q, c);
    ExpectedSelectable(ParsedUpdates(q, c), q, c);
  }

  /** A dictionary holding the expected values that identifies a product also writes a
      column: the `ProductID` itself, or the new `ProductName` that comes with `old_name`. */
  lemma ExpectedWritesColumn(ups: Updates, q: string, c: Captures)
    requires Fits(c, q) && forall k :: Lookup(ups, k) == Expected(q, c, k)
    requires !SelectionOf(ups).NoSelector?
    ensures Descriptions(ups) != []
  {
    var k := if HasKey(ups, "ProductID") then "ProductID" else "ProductName";
    assert Lookup(ups, "old_name") == Expected(q, c, "old_name");
    assert Lookup(ups, k) == Expected(q, c, k);
    var j :| 0 <= j < |ups| && ups[j] == Entry(k, Lookup(ups, k).value);
    assert IsColumn(k);
    DescriptionsNonEmpty(ups);
  }

  /** A dictionary holding the expected values is never answered with "No valid updates
      found". */
  lemma ExpectedNeverLacksUpdates(rows: seq<Row>, ups: Updates, q: string, c: Captures)
    requires Fits(c, q) && forall k :: Lookup(ups, k) == Expected(q, c, k)
    ensures Selectable(ups) && ApplyMessage(rows, ups) != NoValidUpdatesMessage
  {
    ExpectedSelectable(ups, q, c);
    FailuresStartApart();
    if rows != [] && !SelectionOf(ups).NoSelector? {
      ExpectedWritesColumn(ups, q, c);
      if true in Mask(rows, SelectionOf(ups)) {
        assert ApplyMessage(rows, ups)[0] == SuccessPrefix[0];
      }
    }
  }

  /** The message "No valid updates found" never follows a parsed command: every command
      that identifies a product also writes a column. */
  lemma ParsedNeverLacksUpdates(rows: seq<Row>, q: string, c: Captures)
    requires Fits(c, q)
    ensures Selectable(ParsedUpdates(q, c)) && ApplyMessage(rows, ParsedUpdates(q, c)) != NoValidUpdatesMessage
  {
    ParsedMeaning(q, c);
    ExpectedNeverLacksUpdates(rows, ParsedUpdates(q, c), q, c);
  }

  /** The factory distance pattern stores its number under `FactoryDistance`, which is not a
      column: no parsed command changes the `FactoryDistanceKM` cell of any row. */
  lemma ParsedKeepsFactoryDistance(rows: seq<Row>, q: string, c: Captures, i: nat)
    requires Fits(c, q) && i < |rows|
    ensures Selectable(ParsedUpdates(q, c)) && |AppliedRows(rows, ParsedUpdates(q, c))| == |rows|
    ensures "FactoryDistanceKM" in AppliedRows(rows, ParsedUpdates(q, c))[i] <==> "FactoryDistanceKM" in rows[i]
    ensures "FactoryDistanceKM" in rows[i] ==>
      AppliedRows(rows, ParsedUpdates(q, c))[i]["FactoryDistanceKM"] == rows[i]["FactoryDistanceKM"]
  {
    ParsedSelectable(q, c);
    ParsedKeys(q, c);
    AppliedCells(rows, ParsedUpdates(q, c), i, "FactoryDistanceKM");
  }

  /** A dictionary holding the expected values of a command that captured a product number
      and no column value has `ProductID` as its only column entry. */
  lemma ExpectedIdOnlyColumn(ups: Updates, q: string, c: Captures)
    requires Fits(c, q) && forall k :: Lookup(ups, k) == Expected(q, c, k)
    requires c.rename.None? && c.currentStock.None? && c.lastSoldDate.None?
    requires c.expiryDate.None? && c.salesLastMonth.None? && c.location.None?
    ensures forall k :: IsColumn(k) && HasKey(ups, k) ==> k == "ProductID"
  {
    forall k | IsColumn(k) && HasKey(ups, k) ensures k == "ProductID" {
      assert Lookup(ups, k) == Expected(q, c, k);
    }
  }

  /** Such a dictionary leaves a selected row as it is: it writes the number the row
      already holds. */
  lemma IdOnlyKeepsRow(row: Row, ups: Updates)
    requires IsDict(ups) && forall k :: IsColumn(k) && HasKey(ups, k) ==> k == "ProductID"
    requires "ProductID" in row && Lookup(ups, "ProductID") == Some(row["ProductID"])
    ensures UpdateRow(row, ups) == row
  {
    forall k ensures k in UpdateRow(row, ups) <==> k in row {
      UpdateRowCell(row, ups, k);
    }
    forall k | k in row ensures UpdateRow(row, ups)[k] == row[k] {
      UpdateRowCell(row, ups, k);
    }
  }

  /** Such a command leaves the whole table as it is. */
  lemma ExpectedIdOnlyKeepsRows(rows: seq<Row>, ups: Updates, q: string, c: Captures)
    requires Fits(c, q) && forall k :: Lookup(ups, k) == Expected(q, c, k)
    requires IsDict(ups) && c.productId.Some?
    requires c.rename.None? && c.currentStock.None? && c.lastSoldDate.None?
    requires c.expiryDate.None? && c.salesLastMonth.None? && c.location.None?
    ensures Selectable(ups) && AppliedRows(rows, ups) == rows
  {
    ExpectedSelectable(ups, q, c);
    ExpectedIdOnlyColumn(ups, q, c);
    var sel := SelectionOf(ups);
    assert Lookup(ups, "ProductID") == Expected(q, c, "ProductID");
    if rows != [] && true in Mask(rows, sel) {
      forall i | 0 <= i < |rows| && RowMatches(rows[i], sel)
        ensures UpdateRow(rows[i], ups) == rows[i]
      {
        IdOnlyKeepsRow(rows[i], ups);
      }
    }
  }

  /** Changing a factory distance by product number ("update product 11023 factory distance
      to 40") leaves the table as it is, although the message reports the product number as
      updated. */
  lemma DistanceCommandKeepsRows(rows: seq<Row>, q: string, c: Captures)
    requires Fits(c, q) && c.productId.Some? && c.factoryDistance.Some?
    requires c.rename.None? && c.currentStock.None? && c.lastSoldDate.None?
    requires c.expiryDate.None? && c.salesLastMonth.None? && c.location.None?
    ensures Selectable(ParsedUpdates(q, c)) && AppliedRows(rows, ParsedUpdates(q, c)) == rows
  {
    ParsedMeaning(q, c);
    ExpectedIdOnlyKeepsRows(rows, ParsedUpdates(q, c), q, c);
  }

  /** A command that names neither a product number nor a rename ("update organic apples
      location to sectionb") cannot pick a row. */
  lemma UnidentifiedCommand(rows: seq<Row>, q: string, c: Captures)
    requires Fits(c, q) && rows != [] && c.productId.None? && c.rename.None?
    ensures Selectable(ParsedUpdates(q, c))
    ensures AppliedRows(rows, ParsedUpdates(q, c)) == rows
    ensures ApplyMessage(rows, ParsedUpdates(q, c)) == CannotIdentifyMessage
  {
    var ups := ParsedUpdates(q, c);
    ParsedMeaning(q, c);
    ExpectedSelectable(ups, q, c);
    assert Lookup(ups, "ProductID") == Expected(q, c, "ProductID");
    assert Lookup(ups, "old_name") == Expected(q, c, "old_name");
  }

  // ---------------------------------------------------------------------------------------
  // The submit handler
  // ---------------------------------------------------------------------------------------

  /** A non-blank command is reported as not understood exactly when no pattern matched. */
  lemma SubmitNotParsed(rows: seq<Row>, query: string, c: Captures, saveSucceeds: bool)
    requires Fits(c, Normalize(query))
    ensures Submit(rows, query, c, saveSucceeds).0 == NotParsed <==> Strip(query) != [] && NoCaptures(c)
  {
    ParsedEmpty(Normalize(query), c);
  }

  /** Submitting a dictionary again after it was saved saves nothing: applying it is
      idempotent. */
  lemma ResubmitParsed(rows: seq<Row>, ups: Updates, saveSucceeds: bool)
    requires IsDict(ups) && Selectable(ups) && SubmitParsed(rows, ups, true).0.Saved?
    ensures SubmitParsed(SubmitParsed(rows, ups, true).1, ups, saveSucceeds).0.Unchanged?
  {
    AppliedIdempotent(rows, ups);
  }

  /** Submitting a command again after it was saved saves nothing. */
  lemma ResubmitKeepsTable(rows: seq<Row>, query: string, c: Captures, saveSucceeds: bool)
    requires Fits(c, Normalize(query)) && Submit(rows, query, c, true).0.Saved?
    ensures Submit(Submit(rows, query, c, true).1, query, c, saveSucceeds).0.Unchanged?
  {
    var ups := ParsedUpdates(Normalize(query), c);
    ParsedSelectable(Normalize(query), c);
    var saved := SubmitParsed(rows, ups, true);
    assert Submit(rows, query, c, true) == saved;
    ResubmitParsed(rows, ups, saveSucceeds);
    assert Submit(saved.1, query, c, saveSucceeds) == SubmitParsed(saved.1, ups, saveSucceeds);
  }

  /** A command that names neither a product number nor a rename, such as "update organic
      apples location to sectionb", is answered with the warning that the product could not
      be identified. */
  lemma SubmitUnidentified(rows: seq<Row>, query: string, c: Captures, saveSucceeds: bool)
    requires Fits(c, Normalize(query)) && rows != [] && Strip(query) != []
    requires c.productId.None? && c.rename.None? && !NoCaptures(c)
    ensures Submit(rows, query, c, saveSucceeds) == (Unchanged(CannotIdentifyMessage), rows)
  {
    ParsedEmpty(Normalize(query), c);
    UnidentifiedCommand(rows, Normalize(query), c);
  }

  /** A dictionary that leaves the table as it is is never saved. */
  lemma UnchangedNotSaved(rows: seq<Row>, ups: Updates, saveSucceeds: bool)
    requires (rows != [] ==> Selectable(ups)) && AppliedRows(rows, ups) == rows
    ensures !SubmitParsed(rows, ups, saveSucceeds).0.Saved?
  {
  }

  /** A factory distance command by product number is never saved. */
  lemma SubmitDistanceNeverSaved(rows: seq<Row>, query: string, c: Captures, saveSucceeds: bool)
    requires Fits(c, Normalize(query)) && c.productId.Some? && c.factoryDistance.Some?
    requires c.rename.None? && c.currentStock.None? && c.lastSoldDate.None?
    requires c.expiryDate.None? && c.salesLastMonth.None? && c.location.None?
    ensures !Submit(rows, query, c, saveSucceeds).0.Saved?
  {
    if Strip(query) != [] {
      var ups := ParsedUpdates(Normalize(query), c);
      DistanceCommandKeepsRows(rows, Normalize(query), c);
      UnchangedNotSaved(rows, ups, saveSucceeds);
    }
  }
}
