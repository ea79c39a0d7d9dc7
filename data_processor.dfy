/**
 * `DataFrameHolder` of `data_processor/data_processor.py`, the copy the
 * application uses. The object holds one data frame and replaces it step
 * by step; a step that raises leaves the frame as the steps before it made
 * it. Each method is tied to the step function of module `Pipeline` that
 * states what it computes.
 */
module DataProcessor {
  import opened Wrappers
  import opened Frames
  import opened Cleaning
  import opened Merge
  import opened Grouping
  import opened Pipeline

  class DataFrameHolder {
    /** `_data_frame`, reassigned by every step. */
    var frame: Frame
    /** `_price_columns`, fixed at construction. */
    const priceColumns: seq<string>

    ghost predicate Valid()
      reads this
    {
      priceColumns == PriceColumns()
    }

    /**
     * `__init__`: `loaded` is what `load_csv_file` returned, `None` when the
     * file could not be read.
     */
    constructor (loaded: Option<Table>)
      ensures Valid()
      ensures frame == if loaded.Some? then Loaded(loaded.value) else Unloaded
    {
      frame := if loaded.Some? then Loaded(loaded.value) else Unloaded;
      priceColumns := ["Gazole_prix", "SP98_prix", "SP95_prix", "E85_prix", "E10_prix", "GPLc_prix"];
    }

    /** The `data_frame` property. */
    function DataFrame(): Frame
      reads this
    {
      frame
    }

    /** `process_data`: cleaning, then the computation unless cleaning raised. */
    method ProcessData() returns (outcome: Outcome<Error>)
      requires Valid()
      modifies this
      ensures Valid()
      ensures (frame, outcome) == ProcessStep(old(frame))
    {
      outcome := DataCleaning();
      if outcome.Pass? {
        outcome := ComputeNewDataFrame();
      }
    }

    /**
     * `_data_cleaning`: select the useful columns, add `cp_ville` and drop
     * `Ville` and `Code postal`, drop the rows lacking a region, decode
     * `geom`. Selection on a frame without the columns raises before any
     * assignment; decoding raises after the filter has been stored.
     */
    method DataCleaning() returns (outcome: Outcome<Error>)
      requires Valid()
      modifies this
      ensures Valid()
      ensures (frame, outcome) == CleaningStep(old(frame))
      ensures outcome.Pass? ==> frame.Clean?
    {
      var useful := ["Région", "Département", "Code postal", "Ville", "geom"] + priceColumns;
      assert useful == UsefulColumns();
      match frame {
        case Unloaded =>
          outcome := Fail(NoDataFrame);
        case Loaded(t) =>
          var projected := Project(t);
          if projected.Err? {
            return Fail(projected.error);
          }
          frame := Loaded(projected.value);
          frame := Keyed(AddKeys(frame.table.rows));
          frame := Keyed(DropMissingRegion(frame.keyed));
          var decoded := DecodeRows(frame.keyed);
          if decoded.Err? {
            return Fail(decoded.error);
          }
          frame := Clean(decoded.value);
          outcome := Pass;
        case _ =>
          outcome := Fail(MissingColumns(Missing(useful, Columns(frame))));
      }
    }

    /**
     * `_compute_new_dataframe`: the four reductions over `cp_ville`, then
     * their inner join. The coordinate reduction may raise, and the frame
     * then stays as cleaning left it.
     */
    method ComputeNewDataFrame() returns (outcome: Outcome<Error>)
      requires Valid() && frame.Clean?
      modifies this
      ensures Valid()
      ensures (frame, outcome) == ComputeStep(old(frame))
    {
      var rows := frame.clean;
      var cityGeoMapping := GeoMapping(rows);
      var cityPricesMeans := PriceMeans(rows);
      var cityCoordsMeans := CoordMeans(rows);
      if cityCoordsMeans.Err? {
        return Fail(cityCoordsMeans.error);
      }
      var cityAppCount := Counts(rows);
      var merged := InnerJoin(InnerJoin(InnerJoin(cityGeoMapping, cityPricesMeans), cityCoordsMeans.value), cityAppCount);
      frame := Aggregated(seq(|merged|, i requires 0 <= i < |merged| => ToCity(merged[i])));
      outcome := Pass;
    }
  }
}
