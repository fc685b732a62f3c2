/** The warehouse simulator: the initial catalogue it writes, the events that change one
    product at a time, and the status counts it reports after each round. Random draws and
    the current date are parameters, each constrained to the range the simulator draws
    from; a date the simulator computes as "today plus n days" is a date whose day count is
    n more than today's. */
module Simulator {
  import opened Wrappers
  import opened Text
  import opened Dates
  import opened Inventory
  import Pipeline

  // ---------------------------------------------------------------------------------------
  // The initial inventory
  // ---------------------------------------------------------------------------------------

  /** The product catalogue, name and storage location, in file order. */
  const Catalog: seq<(string, string)> := [
    ("Widget A - Heavy Duty", "SectionA-Aisle3-Shelf2"),
    ("Electronic Component B", "SectionC-Aisle2-Shelf5"),
    ("Packaging Material C", "SectionB-Aisle7-Shelf1"),
    ("Storage Box D", "SectionA-Aisle1-Shelf3"),
    ("Power Tool E", "SectionD-Aisle6-Shelf4"),
    ("Food Product F", "ColdStorage-Zone2"),
    ("Medical Supply G", "SecureArea-Aisle5"),
    ("Spare Part H", "SectionB-Aisle2-Shelf6"),
    ("Electronic Device I", "SectionD-Aisle1-Shelf2"),
    ("Office Supply J", "SectionA-Aisle5-Shelf1"),
    ("Raw Material K", "BulkStorage-Zone1"),
    ("Consumer Good L", "SectionC-Aisle3-Shelf4"),
    ("Industrial Item M", "HeavyGoods-Area3"),
    ("Seasonal Product N", "SectionB-Aisle4-Shelf2"),
    ("Fragile Item O", "SpecialHandling-Zone1")]

  /** The first product's number; the others follow consecutively. */
  const FirstProductID := 11023

  /** The random draws for one product. */
  datatype Draw = Draw(
    stock: int,        // by category
    sales: int,        // by category
    lowStock: int,     // 0 to 8, used for every fifth product number
    lastSold: Date,    // ten days ago plus 0 to 30 days
    expiry: Date,      // today plus -5 to 60 days (perishable) or 30 to 365 days
    months: int,       // 6 to 24 months of sales history
    distance: int)     // 1 to 25 km

  predicate HeavyGoods(name: string) {
    Contains(name, "Heavy") || Contains(name, "Industrial")
  }

  predicate Perishable(name: string) {
    Contains(name, "Medical") || Contains(name, "Food")
  }

  /** The ranges `create_initial_inventory` draws from for the product `name`. */
  predicate DrawFits(name: string, d: Draw, today: Date)
    requires IsValid(today)
  {
    && (if HeavyGoods(name) then 5 <= d.stock <= 50 && 10 <= d.sales <= 40
        else if Perishable(name) then 20 <= d.stock <= 150 && 50 <= d.sales <= 120
        else 0 <= d.stock <= 200 && 0 <= d.sales <= 150)
    && 0 <= d.lowStock <= 8
    && IsValid(d.lastSold) && 0 <= Ordinal(d.lastSold) - (Ordinal(today) - 10) <= 30
    && IsValid(d.expiry)
    && (if Perishable(name) then -5 <= Ordinal(d.expiry) - Ordinal(today) <= 60
        else 30 <= Ordinal(d.expiry) - Ordinal(today) <= 365)
    && 6 <= d.months <= 24
    && 1 <= d.distance <= 25
  }

  /** One draw per product of the catalogue `products`, each in its product's ranges. */
  predicate DrawsFit(products: seq<(string, string)>, draws: seq<Draw>, today: Date)
    requires IsValid(today)
  {
    |draws| == |products| && forall k :: 0 <= k < |products| ==> DrawFits(products[k].0, draws[k], today)
  }

  /** A history of at least six months sums to at least six times one month's sales. */
  lemma AtLeastSixMonths(sales: int, months: int)
    ensures sales >= 0 && months >= 6 ==> sales * months >= 6 * sales
  {
    if sales >= 0 && months >= 6 {
      assert sales * months == 6 * sales + sales * (months - 6);
    }
  }

  /** The record of a product with number `id` and the given draws: every fifth number gets
      the low stock draw, the dates are written as `YYYY-MM-DD`, and the total is last
      month's sales times the months of history, so at least six of them. */
  function ProductRecord(id: int, name: string, location: string, d: Draw): (r: Record)
    requires IsValid(d.lastSold) && IsValid(d.expiry)
    ensures r.ProductID == id && r.ProductName == name && r.Location == location
    ensures id % 5 == 0 ==> r.CurrentStock == d.lowStock
    ensures id % 5 != 0 ==> r.CurrentStock == d.stock
    ensures d.sales >= 0 && d.months >= 6 ==> r.TotalSales >= 6 * r.SalesLastMonth
  {
    AtLeastSixMonths(d.sales, d.months);
    Record(
      id, name, location,
      if id % 5 == 0 then d.lowStock else d.stock,
      FormatDate(d.lastSold), FormatDate(d.expiry),
      d.sales, d.sales * d.months, d.distance)
  }

  /** The record of the `k`-th catalogue product. */
  function InitialRecord(products: seq<(string, string)>, k: nat, d: Draw): (r: Record)
    requires k < |products| && IsValid(d.lastSold) && IsValid(d.expiry)
    ensures r.ProductID == FirstProductID + k
    ensures (r.ProductName, r.Location) == products[k]
  {
    ProductRecord(FirstProductID + k, products[k].0, products[k].1, d)
  }

  /** The counts a record keeps are never negative. */
  predicate Sane(r: Record) {
    r.CurrentStock >= 0 && r.SalesLastMonth >= 0 && r.TotalSales >= 0
  }

  /** A record built from draws in range is sane: its history covers at least six times its
      last month, every fifth product number starts with at most 8 units, heavy goods start
      with 5 to 50 units otherwise, the distance is 1 to 25 km, and both dates read back as
      the drawn dates. */
  lemma ProductRecordFacts(id: int, name: string, location: string, d: Draw, today: Date)
    requires IsValid(today) && DrawFits(name, d, today)
    ensures var r := ProductRecord(id, name, location, d);
      && Sane(r)
      && r.TotalSales >= 6 * r.SalesLastMonth
      && (id % 5 == 0 ==> r.CurrentStock <= 8)
      && (id % 5 != 0 && HeavyGoods(name) ==> 5 <= r.CurrentStock <= 50)
      && 1 <= r.FactoryDistanceKM <= 25
      && ParseDate(r.LastSoldDate) == Some(d.lastSold) && ParseDate(r.ExpiryDate) == Some(d.expiry)
  {
    assert d.sales >= 0 && d.months >= 6;
    ParseFormat(d.lastSold);
    ParseFormat(d.expiry);
  }

  /** The facts above for the `k`-th catalogue product. */
  lemma InitialRecordFacts(products: seq<(string, string)>, draws: seq<Draw>, today: Date, k: nat)
    requires IsValid(today) && DrawsFit(products, draws, today) && k < |products|
    ensures var r := InitialRecord(products, k, draws[k]);
      && Sane(r) && r.TotalSales >= 6 * r.SalesLastMonth
      && (r.ProductID % 5 == 0 ==> r.CurrentStock <= 8)
      && (r.ProductID % 5 != 0 && HeavyGoods(r.ProductName) ==> 5 <= r.CurrentStock <= 50)
  {
    ProductRecordFacts(FirstProductID + k, products[k].0, products[k].1, draws[k], today);
  }

  /** The inventory `create_initial_inventory` writes for a catalogue: one record per
      product, in catalogue order. */
  function InitialInventory(products: seq<(string, string)>, draws: seq<Draw>, today: Date): (records: seq<Record>)
    requires IsValid(today) && DrawsFit(products, draws, today)
    ensures |records| == |products|
  {
    seq(|products|, k requires 0 <= k < |products| => InitialRecord(products, k, draws[k]))
  }

  /** In the initial inventory the product numbers run consecutively from 11023, so no two
      are equal; every record is sane; every fifth number has at most 8 units in stock. */
  lemma InitialInventoryFacts(products: seq<(string, string)>, draws: seq<Draw>, today: Date)
    requires IsValid(today) && DrawsFit(products, draws, today)
    ensures var records := InitialInventory(products, draws, today);
      && (forall k :: 0 <= k < |records| ==> records[k].ProductID == FirstProductID + k)
      && (forall i, j :: 0 <= i < j < |records| ==> records[i].ProductID < records[j].ProductID)
      && (forall k :: 0 <= k < |records| ==> Sane(records[k]))
      && (forall k :: 0 <= k < |records| && records[k].ProductID % 5 == 0 ==> records[k].CurrentStock <= 8)
  {
    var records := InitialInventory(products, draws, today);
    forall k | 0 <= k < |records|
      ensures Sane(records[k]) && (records[k].ProductID % 5 == 0 ==> records[k].CurrentStock <= 8)
    {
      InitialRecordFacts(products, draws, today, k);
    }
  }

  /** One row of `create_initial_inventory`: the low stock draw when the product number is
      a multiple of 5, the two dates formatted, and last month's sales times the drawn 6 to 24
      months as the total. */
  method MakeRecord(id: int, name: string, location: string, d: Draw) returns (r: Record)
    requires IsValid(d.lastSold) && IsValid(d.expiry)
    ensures r == ProductRecord(id, name, location, d)
  {
    var stock := d.stock;
    if id % 5 == 0 {
      stock := d.lowStock;
    }
    r := Record(
      id, name, location, stock, FormatDate(d.lastSold), FormatDate(d.expiry),
      d.sales, d.sales * d.months, d.distance);
  }

  /** The loop of `create_initial_inventory` over a catalogue: product `k` gets number
      11023 + k and the draws for that position. */
  method BuildInventory(products: seq<(string, string)>, draws: seq<Draw>, today: Date) returns (records: seq<Record>)
    requires IsValid(today) && DrawsFit(products, draws, today)
    ensures records == InitialInventory(products, draws, today)
  {
    ghost var target := InitialInventory(products, draws, today);
    records := [];
    for k := 0 to |products|
      invariant records == target[..k]
    {
      var (name, location) := products[k];
      var record := MakeRecord(FirstProductID + k, name, location, draws[k]);
      assert record == target[k];
      assert target[..k + 1] == target[..k] + [target[k]];
      records := records + [record];
    }
    assert target[..|products|] == target;
  }

  /** `create_initial_inventory`: the fifteen catalogue products, numbered from 11023, with
      distinct numbers, sane counts and at most 8 units for every fifth number. */
  method CreateInitialInventory(draws: seq<Draw>, today: Date) returns (records: seq<Record>)
    requires IsValid(today) && DrawsFit(Catalog, draws, today)
    ensures records == InitialInventory(Catalog, draws, today) && |records| == 15
    ensures forall i, j :: 0 <= i < j < |records| ==> records[i].ProductID < records[j].ProductID
    ensures forall k :: 0 <= k < |records| ==> Sane(records[k])
    ensures forall k :: 0 <= k < |records| && records[k].ProductID % 5 == 0 ==> records[k].CurrentStock <= 8
  {
    records := BuildInventory(Catalog, draws, today);
    InitialInventoryFacts(Catalog, draws, today);
  }

  // ---------------------------------------------------------------------------------------
  // Events
  // ---------------------------------------------------------------------------------------

  const Sections: seq<string> := ["SectionA", "SectionB", "SectionC", "SectionD", "BulkStorage", "ColdStorage"]
  const Aisles: seq<string> := ["Aisle1", "Aisle2", "Aisle3", "Aisle4", "Aisle5", "Aisle6"]
  const Shelves: seq<string> := ["Shelf1", "Shelf2", "Shelf3", "Shelf4", "Shelf5"]

  /** One warehouse event on the product in row `idx`, with its random draws. */
  datatype Event =
    | Sale(idx: nat, draw: int)                             // 1 to 10 units wanted
    | Restock(idx: nat, amount: int, newExpiry: Option<Date>) // 20 to 100 units; a new batch half the time
    | CustomerReturn(idx: nat, draw: int)                   // 1 to 5 units
    | Move(idx: nat, section: nat, aisle: nat, shelf: nat)
    | ExpiryCheck(idx: nat, newExpiry: Option<Date>)        // an issue 30% of the time

  /** The ranges the simulator draws an event from, on a table of `n` rows. */
  predicate EventFits(e: Event, n: nat, today: Date)
    requires IsValid(today)
  {
    && e.idx < n
    && match e
       case Sale(_, draw) => 1 <= draw <= 10
       case Restock(_, amount, newExpiry) =>
         && 20 <= amount <= 100
         && (newExpiry.Some? ==> IsValid(newExpiry.value) && 60 <= Ordinal(newExpiry.value) - Ordinal(today) <= 180)
       case CustomerReturn(_, draw) => 1 <= draw <= 5
       case Move(_, section, aisle, shelf) => section < |Sections| && aisle < |Aisles| && shelf < |Shelves|
       case ExpiryCheck(_, newExpiry) =>
         newExpiry.Some? ==> IsValid(newExpiry.value) && 1 <= Ordinal(newExpiry.value) - Ordinal(today) <= 7
  }

  function Min(a: int, b: int): int {
    if a <= b then a else b
  }

  function Max(a: int, b: int): int {
    if a >= b then a else b
  }

  /** A sale: when there is stock, between one unit and the wanted number leave the shelf,
      never more than there are; last month's and total sales rise by exactly that many and
      the product was last sold today. Nothing else changes. */
  function SaleStep(r: Record, draw: int, today: Date): (s: Record)
    requires IsValid(today) && 1 <= draw
    ensures r.CurrentStock <= 0 ==> s == r
    ensures r.CurrentStock > 0 ==>
      var units := r.CurrentStock - s.CurrentStock;
      && 1 <= units <= draw && units <= r.CurrentStock
      && (units == draw || units == r.CurrentStock)
      && s.SalesLastMonth == r.SalesLastMonth + units
      && s.TotalSales == r.TotalSales + units
      && s.LastSoldDate == FormatDate(today)
      && s.(CurrentStock := r.CurrentStock, SalesLastMonth := r.SalesLastMonth,
            TotalSales := r.TotalSales, LastSoldDate := r.LastSoldDate) == r
  {
    if r.CurrentStock > 0 then
      var units := Min(draw, r.CurrentStock);
      r.(CurrentStock := r.CurrentStock - units,
         SalesLastMonth := r.SalesLastMonth + units,
         TotalSales := r.TotalSales + units,
         LastSoldDate := FormatDate(today))
    else r
  }

  /** A restock adds the delivered units; a new batch also brings its own expiry date. */
  function RestockStep(r: Record, amount: int, newExpiry: Option<Date>): (s: Record)
    requires newExpiry.Some? ==> IsValid(newExpiry.value)
    ensures s.CurrentStock == r.CurrentStock + amount
    ensures s.ExpiryDate == if newExpiry.Some? then FormatDate(newExpiry.value) else r.ExpiryDate
    ensures s.(CurrentStock := r.CurrentStock, ExpiryDate := r.ExpiryDate) == r
  {
    var restocked := r.(CurrentStock := r.CurrentStock + amount);
    match newExpiry
    case Some(d) => restocked.(ExpiryDate := FormatDate(d))
    case None => restocked
  }

  /** A return: when something was sold last month, between one unit and the drawn number
      come back, never more than were sold; they move from last month's sales back to the
      stock, and total sales stay as they are. */
  function ReturnStep(r: Record, draw: int): (s: Record)
    requires 1 <= draw
    ensures r.SalesLastMonth <= 0 ==> s == r
    ensures r.SalesLastMonth > 0 ==>
      var units := s.CurrentStock - r.CurrentStock;
      && 1 <= units <= draw && units <= r.SalesLastMonth
      && s.SalesLastMonth == r.SalesLastMonth - units >= 0
      && s.(CurrentStock := r.CurrentStock, SalesLastMonth := r.SalesLastMonth) == r
  {
    if r.SalesLastMonth > 0 then
      var units := Min(draw, r.SalesLastMonth);
      r.(CurrentStock := r.CurrentStock + units,
         SalesLastMonth := Max(0, r.SalesLastMonth - units))
    else r
  }

  /** A move puts the product on a `<section>-<aisle>-<shelf>` location. */
  function MoveStep(r: Record, section: nat, aisle: nat, shelf: nat): (s: Record)
    requires section < |Sections| && aisle < |Aisles| && shelf < |Shelves|
    ensures s.Location == Sections[section] + "-" + Aisles[aisle] + "-" + Shelves[shelf]
    ensures s.(Location := r.Location) == r
  {
    r.(Location := Sections[section] + "-" + Aisles[aisle] + "-" + Shelves[shelf])
  }

  /** A quality check that finds an issue moves the expiry date close. */
  function ExpiryStep(r: Record, newExpiry: Option<Date>): (s: Record)
    requires newExpiry.Some? ==> IsValid(newExpiry.value)
    ensures s.ExpiryDate == if newExpiry.Some? then FormatDate(newExpiry.value) else r.ExpiryDate
    ensures s.(ExpiryDate := r.ExpiryDate) == r
  {
    match newExpiry
    case Some(d) => r.(ExpiryDate := FormatDate(d))
    case None => r
  }

  /** The record after an event on it. Every event keeps a sane record sane, keeps stock
      plus last month's sales (a sale or a return only moves units between them), never
      lowers total sales, and never touches the number, name or factory distance. */
  function Step(r: Record, e: Event, today: Date): (s: Record)
    requires IsValid(today) && EventFits(e, e.idx + 1, today)
    ensures Sane(r) ==> Sane(s)
    ensures !e.Restock? ==> s.CurrentStock + s.SalesLastMonth == r.CurrentStock + r.SalesLastMonth
    ensures s.TotalSales >= r.TotalSales
    ensures s.ProductID == r.ProductID && s.ProductName == r.ProductName
    ensures s.FactoryDistanceKM == r.FactoryDistanceKM
  {
    match e
    case Sale(_, draw) => SaleStep(r, draw, today)
    case Restock(_, amount, newExpiry) => RestockStep(r, amount, newExpiry)
    case CustomerReturn(_, draw) => ReturnStep(r, draw)
    case Move(_, section, aisle, shelf) => MoveStep(r, section, aisle, shelf)
    case ExpiryCheck(_, newExpiry) => ExpiryStep(r, newExpiry)
  }

  predicate EventsFit(events: seq<Event>, n: nat, today: Date)
    requires IsValid(today)
  {
    forall k :: 0 <= k < |events| ==> EventFits(events[k], n, today)
  }

  /** The table after the events of one round, in order. */
  function ApplyEvents(rows: seq<Record>, events: seq<Event>, today: Date): (result: seq<Record>)
    requires IsValid(today) && EventsFit(events, |rows|, today)
    ensures |result| == |rows|
    decreases |events|
  {
    if events == [] then rows
    else
      var e := events[|events| - 1];
      var before := ApplyEvents(rows, events[..|events| - 1], today);
      before[e.idx := Step(before[e.idx], e, today)]
  }

  /** A round of events keeps every row sane, keeps each row's number, name and factory
      distance, and never lowers a row's total sales. */
  lemma {:induction false} EventsKeepRows(rows: seq<Record>, events: seq<Event>, today: Date, i: nat)
    requires IsValid(today) && EventsFit(events, |rows|, today) && i < |rows|
    ensures var after := ApplyEvents(rows, events, today)[i];
      && (Sane(rows[i]) ==> Sane(after))
      && after.ProductID == rows[i].ProductID && after.ProductName == rows[i].ProductName
      && after.FactoryDistanceKM == rows[i].FactoryDistanceKM
      && after.TotalSales >= rows[i].TotalSales
    decreases |events|
  {
    if events != [] {
      var init := events[..|events| - 1];
      assert EventsFit(init, |rows|, today) by {
        forall k | 0 <= k < |init| ensures EventFits(init[k], |rows|, today) {
          assert init[k] == events[k];
        }
      }
      EventsKeepRows(rows, init, today, i);
    }
  }

  /** The product numbers the initial inventory assigns stay distinct however many rounds of
      events follow. */
  lemma IdsStayUnique(rows: seq<Record>, events: seq<Event>, today: Date)
    requires IsValid(today) && EventsFit(events, |rows|, today)
    requires forall i, j :: 0 <= i < j < |rows| ==> rows[i].ProductID != rows[j].ProductID
    ensures var after := ApplyEvents(rows, events, today);
      forall i, j :: 0 <= i < j < |after| ==> after[i].ProductID != after[j].ProductID
  {
    var after := ApplyEvents(rows, events, today);
    forall i, j | 0 <= i < j < |after| ensures after[i].ProductID != after[j].ProductID {
      EventsKeepRows(rows, events, today, i);
      EventsKeepRows(rows, events, today, j);
    }
  }

  /** One event, written cell by cell into the row it picked. */
  method UpdateRecord(current: Record, e: Event, today: Date) returns (row: Record)
    requires IsValid(today) && EventFits(e, e.idx + 1, today)
    ensures row == Step(current, e, today)
  {
    row := current;
    match e {
      case Sale(_, draw) =>
        if row.CurrentStock > 0 {
          var unitsSold := Min(draw, row.CurrentStock);
          row := row.(CurrentStock := row.CurrentStock - unitsSold);
          row := row.(SalesLastMonth := row.SalesLastMonth + unitsSold);
          row := row.(TotalSales := row.TotalSales + unitsSold);
          row := row.(LastSoldDate := FormatDate(today));
        }
      case Restock(_, amount, newExpiry) =>
        row := row.(CurrentStock := row.CurrentStock + amount);
        if newExpiry.Some? {
          row := row.(ExpiryDate := FormatDate(newExpiry.value));
        }
      case CustomerReturn(_, draw) =>
        if row.SalesLastMonth > 0 {
          var returnUnits := Min(draw, row.SalesLastMonth);
          row := row.(CurrentStock := row.CurrentStock + returnUnits);
          row := row.(SalesLastMonth := Max(0, row.SalesLastMonth - returnUnits));
        }
      case Move(_, section, aisle, shelf) =>
        row := row.(Location := Sections[section] + "-" + Aisles[aisle] + "-" + Shelves[shelf]);
      case ExpiryCheck(_, newExpiry) =>
        if newExpiry.Some? {
          row := row.(ExpiryDate := FormatDate(newExpiry.value));
        }
    }
  }

  /** The inventory file the simulator keeps rewriting. */
  class Warehouse {
    var records: seq<Record>

    constructor (records: seq<Record>)
      ensures this.records == records
    {
      this.records := records;
    }

    /** One event, applied to the row it picked. */
    method ApplyEvent(e: Event, today: Date)
      requires IsValid(today) && EventFits(e, |records|, today)
      modifies this
      ensures |records| == |old(records)|
      ensures records == old(records)[e.idx := Step(old(records)[e.idx], e, today)]
    {
      var row := UpdateRecord(records[e.idx], e, today);
      records := records[e.idx := row];
    }

    /** One round of the simulator: its events, applied in order. */
    method RunRound(events: seq<Event>, today: Date)
      requires IsValid(today) && 2 <= |events| <= 5 && EventsFit(events, |records|, today)
      modifies this
      ensures records == ApplyEvents(old(records), events, today)
    {
      for k := 0 to |events|
        invariant |records| == |old(records)|
        invariant records == ApplyEvents(old(records), events[..k], today)
      {
        assert events[..k + 1][..k] == events[..k];
        ApplyEvent(events[k], today);
      }
      assert events[..|events|] == events;
    }
  }

  // ---------------------------------------------------------------------------------------
  // Status counts
  // ---------------------------------------------------------------------------------------

  /** Adding a position the set does not hold adds one to its size. */
  lemma CountOneMore(before: set<int>, k: int)
    requires k !in before
    ensures |before + {k}| == |before| + 1
  {
  }

  /** A row with no units. */
  predicate NoStock(r: Record) {
    r.CurrentStock == 0
  }

  /** A row with some, but fewer than 10, units. */
  predicate LowOnStock(r: Record) {
    0 < r.CurrentStock < 10
  }

  /** The positions of the empty rows grow by the last position exactly when the last row
      is empty. */
  lemma OutOfStockStep(rows: seq<Record>)
    requires rows != []
    ensures var init := rows[..|rows| - 1];
      |set i | 0 <= i < |rows| && NoStock(rows[i])|
      == |set i | 0 <= i < |init| && NoStock(init[i])| + (if NoStock(rows[|init|]) then 1 else 0)
  {
    var init := rows[..|rows| - 1];
    var before := set i | 0 <= i < |init| && NoStock(init[i]);
    var all := set i | 0 <= i < |rows| && NoStock(rows[i]);
    var after := before + (if NoStock(rows[|init|]) then {|init|} else {});
    forall i | i in all ensures i in after {
      if i < |init| {
        assert init[i] == rows[i];
      }
    }
    forall i | i in after ensures i in all {
      if i < |init| {
        assert init[i] == rows[i];
      }
    }
    assert all == after;
    assert |init| !in before;
    CountOneMore(before, |init|);
  }

  /** Rows with no stock: the number of positions whose stock is 0. */
  function OutOfStockCount(rows: seq<Record>): (n: nat)
    ensures n <= |rows|
    ensures n == |set i | 0 <= i < |rows| && NoStock(rows[i])|
  {
    if rows == [] then 0
    else
      OutOfStockStep(rows);
      OutOfStockCount(rows[..|rows| - 1]) + (if NoStock(rows[|rows| - 1]) then 1 else 0)
  }

  /** The positions of the rows low on stock grow by the last position exactly when the
      last row is low on stock. */
  lemma LowStockStep(rows: seq<Record>)
    requires rows != []
    ensures var init := rows[..|rows| - 1];
      |set i | 0 <= i < |rows| && LowOnStock(rows[i])|
      == |set i | 0 <= i < |init| && LowOnStock(init[i])| + (if LowOnStock(rows[|init|]) then 1 else 0)
  {
    var init := rows[..|rows| - 1];
    var before := set i | 0 <= i < |init| && LowOnStock(init[i]);
    var all := set i | 0 <= i < |rows| && LowOnStock(rows[i]);
    var after := before + (if LowOnStock(rows[|init|]) then {|init|} else {});
    forall i | i in all ensures i in after {
      if i < |init| {
        assert init[i] == rows[i];
      }
    }
    forall i | i in after ensures i in all {
      if i < |init| {
        assert init[i] == rows[i];
      }
    }
    assert all == after;
    assert |init| !in before;
    CountOneMore(before, |init|);
  }

  /** Rows with some, but fewer than 10, units: the number of positions whose stock is 1 to
      9. */
  function LowStockCount(rows: seq<Record>): (n: nat)
    ensures n <= |rows|
    ensures n == |set i | 0 <= i < |rows| && LowOnStock(rows[i])|
  {
    if rows == [] then 0
    else
      LowStockStep(rows);
      LowStockCount(rows[..|rows| - 1]) + (if LowOnStock(rows[|rows| - 1]) then 1 else 0)
  }

  /** A row whose expiry text sorts before today's date text; a row expiring today is not
      expired. */
  predicate IsExpired(r: Record, now: string)
    ensures r.ExpiryDate == now ==> !IsExpired(r, now)
  {
    LexLessIrreflexive(now);
    LexLess(r.ExpiryDate, now)
  }

  /** A row whose expiry text sorts from today's date text up to next week's, both included:
      such a row is never expired, and a row expiring today is expiring soon whenever next
      week does not sort before today. */
  predicate IsExpiringSoon(r: Record, now: string, weekOut: string)
    ensures IsExpiringSoon(r, now, weekOut) ==> !IsExpired(r, now)
    ensures r.ExpiryDate == now && !LexLess(weekOut, now) ==> IsExpiringSoon(r, now, weekOut)
  {
    LexLessIrreflexive(now);
    !LexLess(r.ExpiryDate, now) && !LexLess(weekOut, r.ExpiryDate)
  }

  /** The positions of the expired rows grow by the last position exactly when the last row
      is expired. */
  lemma ExpiredStep(rows: seq<Record>, now: string)
    requires rows != []
    ensures var init := rows[..|rows| - 1];
      |set i | 0 <= i < |rows| && IsExpired(rows[i], now)|
      == |set i | 0 <= i < |init| && IsExpired(init[i], now)| + (if IsExpired(rows[|init|], now) then 1 else 0)
  {
    var init := rows[..|rows| - 1];
    var before := set i | 0 <= i < |init| && IsExpired(init[i], now);
    var all := set i | 0 <= i < |rows| && IsExpired(rows[i], now);
    var after := before + (if IsExpired(rows[|init|], now) then {|init|} else {});
    forall i | i in all ensures i in after {
      if i < |init| {
        assert init[i] == rows[i];
      }
    }
    forall i | i in after ensures i in all {
      if i < |init| {
        assert init[i] == rows[i];
      }
    }
    assert all == after;
    assert |init| !in before;
    CountOneMore(before, |init|);
  }

  /** Rows whose expiry text sorts before today's: the number of expired positions. */
  function ExpiredCount(rows: seq<Record>, now: string): (n: nat)
    ensures n <= |rows|
    ensures n == |set i | 0 <= i < |rows| && IsExpired(rows[i], now)|
  {
    if rows == [] then 0
    else
      ExpiredStep(rows, now);
      ExpiredCount(rows[..|rows| - 1], now) + (if IsExpired(rows[|rows| - 1], now) then 1 else 0)
  }

  /** The positions of the rows expiring soon grow by the last position exactly when the
      last row expires soon. */
  lemma ExpiringSoonStep(rows: seq<Record>, now: string, weekOut: string)
    requires rows != []
    ensures var init := rows[..|rows| - 1];
      |set i | 0 <= i < |rows| && IsExpiringSoon(rows[i], now, weekOut)|
      == |set i | 0 <= i < |init| && IsExpiringSoon(init[i], now, weekOut)|
         + (if IsExpiringSoon(rows[|init|], now, weekOut) then 1 else 0)
  {
    var init := rows[..|rows| - 1];
    var before := set i | 0 <= i < |init| && IsExpiringSoon(init[i], now, weekOut);
    var all := set i | 0 <= i < |rows| && IsExpiringSoon(rows[i], now, weekOut);
    var after := before + (if IsExpiringSoon(rows[|init|], now, weekOut) then {|init|} else {});
    forall i | i in all ensures i in after {
      if i < |init| {
        assert init[i] == rows[i];
      }
    }
    forall i | i in after ensures i in all {
      if i < |init| {
        assert init[i] == rows[i];
      }
    }
    assert all == after;
    assert |init| !in before;
    CountOneMore(before, |init|);
  }

  /** Rows expiring from today to next week: the number of such positions. */
  function ExpiringSoonCount(rows: seq<Record>, now: string, weekOut: string): (n: nat)
    ensures n <= |rows|
    ensures n == |set i | 0 <= i < |rows| && IsExpiringSoon(rows[i], now, weekOut)|
  {
    if rows == [] then 0
    else
      ExpiringSoonStep(rows, now, weekOut);
      ExpiringSoonCount(rows[..|rows| - 1], now, weekOut)
        + (if IsExpiringSoon(rows[|rows| - 1], now, weekOut) then 1 else 0)
  }

  /** No row is both out of stock and low on stock, so the two counts together count the
      rows holding 0 to 9 units, and never exceed the number of rows. */
  lemma {:induction false} StockCountsDisjoint(rows: seq<Record>)
    ensures (set i | 0 <= i < |rows| && NoStock(rows[i])) * (set i | 0 <= i < |rows| && LowOnStock(rows[i])) == {}
    ensures OutOfStockCount(rows) + LowStockCount(rows)
         == |set i | 0 <= i < |rows| && 0 <= rows[i].CurrentStock < 10|
    ensures OutOfStockCount(rows) + LowStockCount(rows) <= |rows|
    decreases |rows|
  {
    var empty := set i | 0 <= i < |rows| && NoStock(rows[i]);
    var low := set i | 0 <= i < |rows| && LowOnStock(rows[i]);
    var under := set i | 0 <= i < |rows| && 0 <= rows[i].CurrentStock < 10;
    assert empty * low == {};
    assert under == empty + low;
    if rows != [] {
      StockCountsDisjoint(rows[..|rows| - 1]);
    }
  }

  /** No row is both expired and expiring soon, so the two counts together count the rows
      that are one or the other, and never exceed the number of rows. */
  lemma {:induction false} ExpiryCountsDisjoint(rows: seq<Record>, now: string, weekOut: string)
    ensures (set i | 0 <= i < |rows| && IsExpired(rows[i], now))
          * (set i | 0 <= i < |rows| && IsExpiringSoon(rows[i], now, weekOut)) == {}
    ensures ExpiredCount(rows, now) + ExpiringSoonCount(rows, now, weekOut)
         == |set i | 0 <= i < |rows| && (IsExpired(rows[i], now) || IsExpiringSoon(rows[i], now, weekOut))|
    ensures ExpiredCount(rows, now) + ExpiringSoonCount(rows, now, weekOut) <= |rows|
    decreases |rows|
  {
    var expired := set i | 0 <= i < |rows| && IsExpired(rows[i], now);
    var soon := set i | 0 <= i < |rows| && IsExpiringSoon(rows[i], now, weekOut);
    var either := set i | 0 <= i < |rows| && (IsExpired(rows[i], now) || IsExpiringSoon(rows[i], now, weekOut));
    assert expired * soon == {};
    assert either == expired + soon;
    if rows != [] {
      ExpiryCountsDisjoint(rows[..|rows| - 1], now, weekOut);
    }
  }

  /** For a row whose expiry is a date, comparing texts compares dates: it counts as expired
      exactly when it expires before today, and as expiring soon exactly when it expires 0
      to 7 days from today. */
  lemma ExpiryCountsMeanDates(r: Record, today: Date, weekOut: Date)
    requires IsValid(today) && IsValid(weekOut) && Ordinal(weekOut) == Ordinal(today) + 7
    requires ParseDate(r.ExpiryDate).Some?
    ensures var d := ParseDate(r.ExpiryDate).value;
      && (IsExpired(r, FormatDate(today)) <==> Ordinal(d) < Ordinal(today))
      && (IsExpiringSoon(r, FormatDate(today), FormatDate(weekOut)) <==> 0 <= Ordinal(d) - Ordinal(today) <= 7)
  {
    var d := ParseDate(r.ExpiryDate).value;
    FormatParse(r.ExpiryDate);
    FormattedOrder(d, today);
    FormattedOrder(weekOut, d);
  }

  /** On the reference date the indexing pipeline uses, the simulator's two expiry counts
      agree with the document labels: expired rows are labelled "EXPIRED" and rows expiring
      soon are labelled "EXPIRES SOON - URGENT". */
  lemma CountsAgreeWithLabels(r: Record, weekOut: Date)
    requires IsValid(weekOut) && Ordinal(weekOut) == Ordinal(Pipeline.ReferenceDate) + 7
    requires ParseDate(r.ExpiryDate).Some?
    ensures IsExpired(r, FormatDate(Pipeline.ReferenceDate)) <==> Pipeline.ExpiryStatus(r.ExpiryDate) == Pipeline.Expired
    ensures IsExpiringSoon(r, FormatDate(Pipeline.ReferenceDate), FormatDate(weekOut)) <==>
      Pipeline.ExpiryStatus(r.ExpiryDate) == Pipeline.ExpiresSoon
  {
    ExpiryCountsMeanDates(r, Pipeline.ReferenceDate, weekOut);
  }

  /** After a quality check finds an issue the product counts as expiring soon and not as
      expired; after a restock with a new batch it counts as neither. */
  lemma ExpiryEventsAndCounts(r: Record, e: Event, today: Date, weekOut: Date)
    requires IsValid(today) && IsValid(weekOut) && Ordinal(weekOut) == Ordinal(today) + 7
    requires EventFits(e, e.idx + 1, today) && (e.ExpiryCheck? || e.Restock?) && e.newExpiry.Some?
    ensures var s := Step(r, e, today);
      && !IsExpired(s, FormatDate(today))
      && (e.ExpiryCheck? <==> IsExpiringSoon(s, FormatDate(today), FormatDate(weekOut)))
  {
    var s := Step(r, e, today);
    var d := e.newExpiry.value;
    ParseFormat(d);
    ExpiryCountsMeanDates(s, today, weekOut);
  }
}
