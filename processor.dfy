/**
 * `DataFrameHolder` of `processor/data_processor.py`, the older copy. It
 * differs from the other one in its directories and in keeping the frame
 * and the price columns as public attributes instead of properties; its
 * pipeline is the same, so its methods are tied to the same step functions.
 */
module Processor {
  import opened Wrappers
  import opened Frames
  import opened Cleaning
  import opened Merge
  import opened Grouping
  import opened Pipeline
  import DataProcessor

  class DataFrameHolder {
    /** The `data_frame` attribute, reassigned by every step. */
    var dataFrame: Frame
    /** The `price_columns` attribute, fixed at construction. */
    const priceColumns: seq<string>

    ghost predicate Valid()
      reads this
    {
      priceColumns == PriceColumns()
    }

    /** `__init__`, with the loader's result as the argument. */
    constructor (loaded: Option<Table>)
      ensures Valid()
      ensures dataFrame == if loaded.Some? then Loaded(loaded.value) else Unloaded
    {
      dataFrame := if loaded.Some? then Loaded(loaded.value) else Unloaded;
      priceColumns := ["Gazole_prix", "SP98_prix", "SP95_prix", "E85_prix", "E10_prix", "GPLc_prix"];
    }

    /** `process_data`. */
    method ProcessData() returns (outcome: Outcome<Error>)
      requires Valid()
      modifies this
      ensures Valid()
      ensures (dataFrame, outcome) == ProcessStep(old(dataFrame))
    {
      outcome := DataCleaning();
      if outcome.Pass? {
        outcome := ComputeNewDataFrame();
      }
    }

    /** `_data_cleaning`, in the same steps as the other copy. */
    method DataCleaning() returns (outcome: Outcome<Error>)
      requires Valid()
      modifies this
      ensures Valid()
      ensures (dataFrame, outcome) == CleaningStep(old(dataFrame))
      ensures outcome.Pass? ==> dataFrame.Clean?
    {
      var useful := ["Région", "Département", "Code postal", "Ville", "geom"] + priceColumns;
      assert useful == UsefulColumns();
      match dataFrame {
        case Unloaded =>
          outcome := Fail(NoDataFrame);
        case Loaded(t) =>
          var projected := Project(t);
          if projected.Err? {
            return Fail(projected.error);
          }
          dataFrame := Loaded(projected.value);
          dataFrame := Keyed(AddKeys(dataFrame.table.rows));
          dataFrame := Keyed(DropMissingRegion(dataFrame.keyed));
          var decoded := DecodeRows(dataFrame.keyed);
          if decoded.Err? {
            return Fail(decoded.error);
          }
          dataFrame := Clean(decoded.value);
          outcome := Pass;
        case _ =>
          outcome := Fail(MissingColumns(Missing(useful, Columns(dataFrame))));
      }
    }

    /** `_compute_new_dataframe`, the same reductions and joins. */
    method ComputeNewDataFrame() returns (outcome: Outcome<Error>)
      requires Valid() && dataFrame.Clean?
      modifies this
      ensures Valid()
      ensures (dataFrame, outcome) == ComputeStep(old(dataFrame))
    {
      var rows := dataFrame.clean;
      var cityGeoMapping := GeoMapping(rows);
      var cityPricesMeans := PriceMeans(rows);
      var cityCoordsMeans := CoordMeans(rows);
      if cityCoordsMeans.Err? {
        return Fail(cityCoordsMeans.error);
      }
      var cityAppCount := Counts(rows);
      var merged := InnerJoin(InnerJoin(InnerJoin(cityGeoMapping, cityPricesMeans), cityCoordsMeans.value), cityAppCount);
      dataFrame := Aggregated(seq(|merged|, i requires 0 <= i < |merged| => ToCity(merged[i])));
      outcome := Pass;
    }
  }

  /**
   * The two copies agree: built from the same loader result and processed,
   * they raise the same error or hold the same output frame.
   */
  method CopiesAgree(loaded: Option<Table>)
    returns (older: Outcome<Error>, olderFrame: Frame, newer: Outcome<Error>, newerFrame: Frame)
    ensures older == newer && olderFrame == newerFrame
    ensures loaded.None? ==> older == Fail(NoDataFrame) && olderFrame == Unloaded
    ensures loaded.Some? ==> (older.Pass? <==> Run(loaded.value).Ok?)
  {
    var a := new DataFrameHolder(loaded);
    var b := new DataProcessor.DataFrameHolder(loaded);
    older := a.ProcessData();
    newer := b.ProcessData();
    olderFrame, newerFrame := a.dataFrame, b.frame;
    if loaded.Some? {
      ProcessLoaded(loaded.value);
    }
  }
}
