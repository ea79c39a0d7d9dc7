/**
 * Data model of the per-city aggregation: the rows the holder's data frame
 * goes through, from one row per filling station to one row per city.
 */
module Frames {
  import opened Wrappers

  /** The six fuels whose price columns the pipeline averages. */
  datatype Fuel = Gazole | SP98 | SP95 | E85 | E10 | GPLc

  /** The fuels in the order of the holder's price column list. */
  const Fuels: seq<Fuel> := [Gazole, SP98, SP95, E85, E10, GPLc]

  /** Column name of each fuel's price in the input export. */
  function ColumnName(f: Fuel): string
  {
    match f
    case Gazole => "Gazole_prix"
    case SP98 => "SP98_prix"
    case SP95 => "SP95_prix"
    case E85 => "E85_prix"
    case E10 => "E10_prix"
    case GPLc => "GPLc_prix"
  }

  /** The holder's price column list: one distinct column per fuel, in order. */
  function PriceColumns(): (cols: seq<string>)
    ensures |cols| == |Fuels| == 6
    ensures forall i :: 0 <= i < 6 ==> cols[i] == ColumnName(Fuels[i])
    ensures forall f: Fuel :: ColumnName(f) in cols
    ensures forall i, j :: 0 <= i < j < |cols| ==> cols[i] != cols[j]
  {
    ["Gazole_prix", "SP98_prix", "SP95_prix", "E85_prix", "E10_prix", "GPLc_prix"]
  }

  /** The columns the cleaning stage keeps, in the order it selects them. */
  function UsefulColumns(): seq<string>
  {
    ["Région", "Département", "Code postal", "Ville", "geom"] + PriceColumns()
  }

  /** One price per fuel, each present or missing. */
  datatype Prices = Prices(gazole: Option<real>, sp98: Option<real>, sp95: Option<real>,
                           e85: Option<real>, e10: Option<real>, gplc: Option<real>)

  function PriceOf(p: Prices, f: Fuel): Option<real>
  {
    match f
    case Gazole => p.gazole
    case SP98 => p.sp98
    case SP95 => p.sp95
    case E85 => p.e85
    case E10 => p.e10
    case GPLc => p.gplc
  }

  /** The prices given fuel by fuel. */
  function PricesBy(price: Fuel -> Option<real>): (p: Prices)
    ensures forall f: Fuel :: PriceOf(p, f) == price(f)
  {
    Prices(price(Gazole), price(SP98), price(SP95), price(E85), price(E10), price(GPLc))
  }

  /**
   * One station as the loader reads it. The postal code is text (the loader
   * forces that column to `str`); a missing cell is `None`. Columns the
   * export has beyond these are named in the table's header only.
   */
  datatype StationRecord = StationRecord(
    region: Option<string>,
    department: Option<string>,
    postalCode: Option<string>,
    city: Option<string>,
    geom: Option<string>,
    prices: Prices)

  /** A loaded table: its header and its rows. */
  datatype Table = Table(columns: seq<string>, rows: seq<StationRecord>)

  /** A row once `cp_ville` is built and `Ville` and `Code postal` are dropped. */
  datatype KeyedRow = KeyedRow(
    region: Option<string>,
    department: Option<string>,
    geom: Option<string>,
    prices: Prices,
    key: Option<string>)

  /** A row once `geom` is decoded into a list of floats. */
  datatype CleanRow = CleanRow(
    region: Option<string>,
    department: Option<string>,
    coords: seq<real>,
    prices: Prices,
    key: Option<string>)

  /** One output row: the aggregate of every station sharing a key. */
  datatype CityAggregate = CityAggregate(
    region: Option<string>,
    department: Option<string>,
    key: string,
    prices: Prices,
    latitude: real,
    longitude: real,
    apparition: nat)

  /** Why `_mean_coords` raises on one group. */
  datatype CoordFailure =
    | IndexOutOfRange   // a non-empty coordinate list with no second element
    | DivisionByZero    // no non-empty coordinate list in the group

  /** The exceptions that abort a run. */
  datatype Error =
    | NoDataFrame                                 // the loader returned None
    | MissingColumns(names: seq<string>)          // a selected column is not in the frame
    | GeometryNotText                             // `geom` is NaN, which has no `split`
    | NotAFloat(piece: string)                    // `float` rejects a geometry piece
    | CoordinatesFailed(key: string, failure: CoordFailure)
    | NoKeyedRows                                 // no group, and `reset_index(level=1)` has no such level

  /** The holder's data frame, tagged with the stage it has reached. */
  datatype Frame =
    | Unloaded
    | Loaded(table: Table)
    | Keyed(keyed: seq<KeyedRow>)
    | Clean(clean: seq<CleanRow>)
    | Aggregated(cities: seq<CityAggregate>)

  /** The column names a frame has at each stage. */
  function Columns(f: Frame): seq<string>
  {
    match f
    case Unloaded => []
    case Loaded(t) => t.columns
    case Keyed(_) => ["Région", "Département", "geom"] + PriceColumns() + ["cp_ville"]
    case Clean(_) => ["Région", "Département", "geom"] + PriceColumns() + ["cp_ville"]
    case Aggregated(_) =>
      ["cp_ville", "Région", "Département"] + PriceColumns() + ["Latitude", "Longitude", "Apparition"]
  }
}
