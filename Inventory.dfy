/** The inventory table shared by the indexing pipeline, the update command and the
    simulator: nine columns, one row per product, dates kept as `YYYY-MM-DD` text. */
module Inventory {

  /** One row of the table, typed as the pipeline's schema declares it. */
  datatype Record = Record(
    ProductID: int,
    ProductName: string,
    Location: string,
    CurrentStock: int,
    LastSoldDate: string,
    ExpiryDate: string,
    SalesLastMonth: int,
    TotalSales: int,
    FactoryDistanceKM: int)

  /** A cell as the update command sees it: a number or a text. */
  datatype Value = IntV(i: int) | StrV(s: string)

  /** A row addressed by column name. */
  type Row = map<string, Value>

  /** The header of the dataset, in file order. */
  const Columns: seq<string> := [
    "ProductID", "ProductName", "Location", "CurrentStock", "LastSoldDate",
    "ExpiryDate", "SalesLastMonth", "TotalSales", "FactoryDistanceKM"]

  const ColumnSet: set<string> := set c | c in Columns

  predicate IsColumn(key: string) {
    key in Columns
  }

  /** The same record addressed by column name. */
  function RowOf(r: Record): (row: Row)
    ensures row.Keys == ColumnSet
    ensures row["ProductID"] == IntV(r.ProductID) && row["ProductName"] == StrV(r.ProductName)
    ensures row["FactoryDistanceKM"] == IntV(r.FactoryDistanceKM)
  {
    map[
      "ProductID" := IntV(r.ProductID),
      "ProductName" := StrV(r.ProductName),
      "Location" := StrV(r.Location),
      "CurrentStock" := IntV(r.CurrentStock),
      "LastSoldDate" := StrV(r.LastSoldDate),
      "ExpiryDate" := StrV(r.ExpiryDate),
      "SalesLastMonth" := IntV(r.SalesLastMonth),
      "TotalSales" := IntV(r.TotalSales),
      "FactoryDistanceKM" := IntV(r.FactoryDistanceKM)]
  }

  /** The table read from a list of records: one row per record, in order, each with the
      nine columns. */
  function TableOf(records: seq<Record>): (rows: seq<Row>)
    ensures |rows| == |records|
    ensures forall i :: 0 <= i < |records| ==> rows[i].Keys == ColumnSet
    ensures forall i :: 0 <= i < |records| ==> rows[i]["ProductID"] == IntV(records[i].ProductID)
  {
    seq(|records|, i requires 0 <= i < |records| => RowOf(records[i]))
  }
}
