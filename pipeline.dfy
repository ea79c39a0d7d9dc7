/**
 * The whole per-city pipeline on a loaded table, and the steps a
 * `DataFrameHolder` takes on its frame. The lemmas here relate the output
 * rows straight to the stations of the loaded table.
 */
module Pipeline {
  import opened Wrappers
  import opened Frames
  import opened Cleaning
  import opened Grouping

  /** Cleaning, then the grouping and merge, on a loaded table. */
  function Run(t: Table): Result<seq<CityAggregate>, Error>
  {
    match CleanTable(t)
    case Err(e) => Err(e)
    case Ok(c) => Compute(c)
  }

  /** The rows left once the key is built and the rows lacking a region dropped. */
  function Kept(t: Table): seq<KeyedRow>
  {
    DropMissingRegion(AddKeys(t.rows))
  }

  /** The stations of the loaded table that end up in the group of `k`, in row order. */
  function Stations(rows: seq<StationRecord>, k: string): (g: seq<StationRecord>)
    ensures forall i :: 0 <= i < |g| ==> g[i].region.Some? && KeyOf(g[i]) == Some(k)
    ensures forall r :: r in g <==> r in rows && r.region.Some? && KeyOf(r) == Some(k)
  {
    if |rows| == 0 then []
    else
      assert rows == [rows[0]] + rows[1..];
      (if rows[0].region.Some? && KeyOf(rows[0]) == Some(k) then [rows[0]] else []) + Stations(rows[1..], k)
  }

  /** The keyed rows whose key is `k`, in row order. */
  function KeptGroup(rows: seq<KeyedRow>, k: string): seq<KeyedRow>
  {
    if |rows| == 0 then []
    else (if rows[0].key == Some(k) then [rows[0]] else []) + KeptGroup(rows[1..], k)
  }

  /**
   * Two row sequences that agree, position by position, on every field, the
   * cleaned coordinates being the decoded geometry of the keyed row.
   */
  predicate SameStations(g: seq<CleanRow>, h: seq<KeyedRow>)
  {
    |g| == |h|
    && forall j :: 0 <= j < |g| ==> Decoded(g[j], h[j])
  }

  /** A cleaned row is a keyed row with its geometry decoded. */
  predicate Decoded(x: CleanRow, y: KeyedRow)
  {
    x.region == y.region && x.department == y.department && x.prices == y.prices && x.key == y.key
    && DecodeGeometry(y.geom) == Ok(x.coords)
  }

  lemma AddKeysAppend(a: seq<StationRecord>, b: seq<StationRecord>)
    ensures AddKeys(a + b) == AddKeys(a) + AddKeys(b)
  {
    assert forall i :: 0 <= i < |b| ==> (a + b)[|a| + i] == b[i];
  }

  lemma DropCons(x: KeyedRow, rest: seq<KeyedRow>)
    ensures DropMissingRegion([x] + rest) == (if x.region.Some? then [x] else []) + DropMissingRegion(rest)
  {
    assert ([x] + rest)[0] == x && ([x] + rest)[1..] == rest;
  }

  lemma KeptGroupCons(x: KeyedRow, rest: seq<KeyedRow>, k: string)
    ensures KeptGroup([x] + rest, k) == (if x.key == Some(k) then [x] else []) + KeptGroup(rest, k)
  {
    assert ([x] + rest)[0] == x && ([x] + rest)[1..] == rest;
  }

  lemma StationsCons(h: StationRecord, tail: seq<StationRecord>, k: string)
    ensures Stations([h] + tail, k) == (if h.region.Some? && KeyOf(h) == Some(k) then [h] else []) + Stations(tail, k)
  {
    assert ([h] + tail)[0] == h && ([h] + tail)[1..] == tail;
  }

  lemma {:induction false} KeptGroupOfStations(rows: seq<StationRecord>, k: string)
    ensures KeptGroup(DropMissingRegion(AddKeys(rows)), k) == AddKeys(Stations(rows, k))
  {
    if |rows| > 0 {
      var h, tail := rows[0], rows[1..];
      assert rows == [h] + tail;
      KeptGroupOfStations(tail, k);
      var kh := KeyRow(h);
      AddKeysAppend([h], tail);
      assert AddKeys([h]) == [kh];
      DropCons(kh, AddKeys(tail));
      var rest := DropMissingRegion(AddKeys(tail));
      StationsCons(h, tail, k);
      var mine := if h.region.Some? && KeyOf(h) == Some(k) then [h] else [];
      AddKeysAppend(mine, Stations(tail, k));
      if h.region.Some? {
        KeptGroupCons(kh, rest, k);
        assert AddKeys(mine) == if KeyOf(h) == Some(k) then [kh] else [];
      } else {
        assert AddKeys(mine) == [];
        assert [] + rest == rest;
        assert [] + AddKeys(Stations(tail, k)) == AddKeys(Stations(tail, k));
      }
    }
  }

  lemma {:induction false} GroupOfDecoded(c: seq<CleanRow>, kept: seq<KeyedRow>, k: string)
    requires SameStations(c, kept)
    ensures SameStations(Group(c, k), KeptGroup(kept, k))
  {
    if |c| > 0 {
      var x, rest, y, others := c[0], c[1..], kept[0], kept[1..];
      assert c == [x] + rest && kept == [y] + others;
      assert SameStations(rest, others) by {
        forall j | 0 <= j < |rest| ensures rest[j] == c[j + 1] && others[j] == kept[j + 1] { }
      }
      GroupOfDecoded(rest, others, k);
      GroupCons(x, rest, k);
      KeptGroupCons(y, others, k);
      SameStationsCons(x, y, Group(rest, k), KeptGroup(others, k), x.key == Some(k));
    }
  }

  /** Prefixing two agreeing rows, or nothing, keeps two sequences agreeing. */
  lemma SameStationsCons(x: CleanRow, y: KeyedRow, g: seq<CleanRow>, h: seq<KeyedRow>, take: bool)
    requires SameStations(g, h) && Decoded(x, y)
    ensures SameStations((if take then [x] else []) + g, (if take then [y] else []) + h)
  {
    if take {
      var g', h' := [x] + g, [y] + h;
      forall j | 0 <= j < |g'| ensures Decoded(g'[j], h'[j]) {
        if j > 0 {
          assert g'[j] == g[j - 1] && h'[j] == h[j - 1];
        }
      }
    } else {
      assert [] + g == g && [] + h == h;
    }
  }

  /**
   * The group of a key in the cleaned table holds, in order, the stations of
   * the loaded table that have a region and that key (rows dropped for a
   * missing region are in no group).
   */
  lemma GroupIsStations(t: Table, c: seq<CleanRow>, k: string)
    requires CleanTable(t) == Ok(c)
    ensures var g, s := Group(c, k), Stations(t.rows, k);
      |g| == |s|
      && forall j :: 0 <= j < |g| ==>
           g[j].region == s[j].region && g[j].department == s[j].department && g[j].prices == s[j].prices
           && DecodeGeometry(s[j].geom) == Ok(g[j].coords)
  {
    var kept := Kept(t);
    assert DecodeRows(kept) == Ok(c);
    assert SameStations(c, kept) by {
      forall j | 0 <= j < |c| ensures Decoded(c[j], kept[j]) {
        assert c[j] == WithCoords(kept[j], DecodeGeometry(kept[j].geom).value);
      }
    }
    GroupOfDecoded(c, kept, k);
    KeptGroupOfStations(t.rows, k);
    var g, h, s := Group(c, k), KeptGroup(kept, k), Stations(t.rows, k);
    forall j | 0 <= j < |g| ensures Decoded(g[j], KeyRow(s[j])) {
      assert Decoded(g[j], h[j]);
    }
  }

  /** Every cleaned row has a region and carries the key of a loaded station with that region. */
  lemma CleanRowsComeFromStations(t: Table, c: seq<CleanRow>)
    requires CleanTable(t) == Ok(c)
    ensures forall i :: 0 <= i < |c| ==> c[i].region.Some?
    ensures forall i :: 0 <= i < |c| ==>
              exists j :: 0 <= j < |t.rows| && t.rows[j].region == c[i].region && KeyOf(t.rows[j]) == c[i].key
  {
    var kept := Kept(t);
    assert DecodeRows(kept) == Ok(c);
    forall i | 0 <= i < |c|
      ensures c[i].region.Some?
      ensures exists j :: 0 <= j < |t.rows| && t.rows[j].region == c[i].region && KeyOf(t.rows[j]) == c[i].key
    {
      assert c[i] == WithCoords(kept[i], DecodeGeometry(kept[i].geom).value);
      assert kept[i] in kept;
      var j :| 0 <= j < |t.rows| && AddKeys(t.rows)[j] == kept[i];
      assert kept[i] == KeyRow(t.rows[j]);
    }
  }

  /** The regions, departments and one fuel's prices of a sequence of stations. */
  function StationRegions(s: seq<StationRecord>): seq<Option<string>>
  {
    seq(|s|, j requires 0 <= j < |s| => s[j].region)
  }

  function StationDepartments(s: seq<StationRecord>): seq<Option<string>>
  {
    seq(|s|, j requires 0 <= j < |s| => s[j].department)
  }

  function StationPrices(s: seq<StationRecord>, f: Fuel): seq<Option<real>>
  {
    seq(|s|, j requires 0 <= j < |s| => PriceOf(s[j].prices, f))
  }

  /** On success, each output row is the summary of its key's group in the cleaned table. */
  lemma RowIsSummary(c: seq<CleanRow>, out: seq<CityAggregate>, i: nat)
    requires Compute(c) == Ok(out) && i < |out|
    ensures out[i].key in Keys(c)
    ensures GroupCoords(c, out[i].key) == Ok((out[i].latitude, out[i].longitude))
    ensures out[i] == Summary(Group(c, out[i].key), out[i].key, GroupCoords(c, out[i].key).value)
  {
    ComputeByKey(c);
    ComputeKeys(c, out);
    var k := Keys(c)[i];
    assert CityOf(c, k) == Ok(out[i]);
  }

  /**
   * The decoded geometry of each station, as a run that succeeds has
   * decoded it (a geometry that does not decode would have aborted it).
   */
  function StationCoords(s: seq<StationRecord>): seq<seq<real>>
  {
    seq(|s|, j requires 0 <= j < |s| => if DecodeGeometry(s[j].geom).Ok? then DecodeGeometry(s[j].geom).value else [])
  }

  /** The coordinate mean of a cleaned group is that of its stations' decoded geometries. */
  lemma SummaryCoords(t: Table, c: seq<CleanRow>, k: string)
    requires CleanTable(t) == Ok(c)
    ensures forall j :: 0 <= j < |Stations(t.rows, k)| ==> DecodeGeometry(Stations(t.rows, k)[j].geom).Ok?
    ensures GroupCoords(c, k) == MeanCoords(StationCoords(Stations(t.rows, k)))
  {
    var g, s := Group(c, k), Stations(t.rows, k);
    GroupIsStations(t, c, k);
    assert CoordLists(g) == StationCoords(s);
  }

  /**
   * The position of an output row is the mean, over the stations of its key,
   * of their decoded geometries, empty ones left out.
   */
  lemma PositionIsMeanOverStations(t: Table, out: seq<CityAggregate>, i: nat)
    requires Run(t) == Ok(out) && i < |out|
    ensures forall j :: 0 <= j < |Stations(t.rows, out[i].key)| ==> DecodeGeometry(Stations(t.rows, out[i].key)[j].geom).Ok?
    ensures MeanCoords(StationCoords(Stations(t.rows, out[i].key))) == Ok((out[i].latitude, out[i].longitude))
  {
    var c := CleanTable(t).value;
    RowIsSummary(c, out, i);
    SummaryCoords(t, c, out[i].key);
  }

  /**
   * `Apparition` is the number of loaded stations with a region and that
   * key: never zero, and rows dropped for a missing region never count.
   */
  lemma ApparitionCountsStations(t: Table, out: seq<CityAggregate>, i: nat)
    requires Run(t) == Ok(out) && i < |out|
    ensures out[i].apparition == |Stations(t.rows, out[i].key)| >= 1
  {
    var c := CleanTable(t).value;
    RowIsSummary(c, out, i);
    var k := out[i].key;
    GroupIsStations(t, c, k);
    var r :| r in c && r.key == Some(k);
    assert r in Group(c, k);
  }

  lemma SummaryRegion(t: Table, c: seq<CleanRow>, k: string, co: (real, real))
    requires CleanTable(t) == Ok(c) && |Group(c, k)| > 0
    ensures |Stations(t.rows, k)| > 0
    ensures Summary(Group(c, k), k, co).region.Some?
    ensures Summary(Group(c, k), k, co).region == Stations(t.rows, k)[0].region
  {
    var g := Group(c, k);
    GroupIsStations(t, c, k);
    assert forall j :: 0 <= j < |g| ==> g[j] in c;
    CleanRowsComeFromStations(t, c);
    SummaryRegionIsFirst(g, k, co);
  }

  /** The region of an output row is the region of the first station with that key. */
  lemma RegionOfFirstStation(t: Table, out: seq<CityAggregate>, i: nat)
    requires Run(t) == Ok(out) && i < |out|
    ensures |Stations(t.rows, out[i].key)| > 0
    ensures out[i].region.Some? && out[i].region == Stations(t.rows, out[i].key)[0].region
  {
    var c := CleanTable(t).value;
    RowIsSummary(c, out, i);
    ApparitionCountsStations(t, out, i);
    GroupIsStations(t, c, out[i].key);
    SummaryRegion(t, c, out[i].key, (out[i].latitude, out[i].longitude));
  }

  lemma SummaryDepartment(t: Table, c: seq<CleanRow>, k: string, co: (real, real))
    requires CleanTable(t) == Ok(c)
    ensures Summary(Group(c, k), k, co).department == FirstPresent(StationDepartments(Stations(t.rows, k)))
  {
    GroupIsStations(t, c, k);
    assert Departments(Group(c, k)) == StationDepartments(Stations(t.rows, k));
  }

  /**
   * The department of an output row is the first department present among
   * the stations of that key, in row order.
   */
  lemma DepartmentOfFirstStation(t: Table, out: seq<CityAggregate>, i: nat)
    requires Run(t) == Ok(out) && i < |out|
    ensures out[i].department == FirstPresent(StationDepartments(Stations(t.rows, out[i].key)))
  {
    var c := CleanTable(t).value;
    RowIsSummary(c, out, i);
    SummaryDepartment(t, c, out[i].key, (out[i].latitude, out[i].longitude));
  }

  lemma SummaryPrice(t: Table, c: seq<CleanRow>, k: string, co: (real, real), f: Fuel)
    requires CleanTable(t) == Ok(c)
    ensures PriceOf(Summary(Group(c, k), k, co).prices, f) == MeanPresent(StationPrices(Stations(t.rows, k), f))
  {
    var g, s := Group(c, k), Stations(t.rows, k);
    GroupIsStations(t, c, k);
    assert PriceColumn(g, f) == StationPrices(s, f);
    MeanPriceOf(g, f);
  }

  /**
   * Each fuel's output price is the mean over the stations of that key that
   * report the fuel, and is missing when none does.
   */
  lemma PriceIsMeanOverStations(t: Table, out: seq<CityAggregate>, i: nat, f: Fuel)
    requires Run(t) == Ok(out) && i < |out|
    ensures PriceOf(out[i].prices, f) == MeanPresent(StationPrices(Stations(t.rows, out[i].key), f))
    ensures PriceOf(out[i].prices, f).None? <==>
              forall j :: 0 <= j < |Stations(t.rows, out[i].key)| ==>
                PriceOf(Stations(t.rows, out[i].key)[j].prices, f).None?
  {
    var c := CleanTable(t).value;
    RowIsSummary(c, out, i);
    SummaryPrice(t, c, out[i].key, (out[i].latitude, out[i].longitude), f);
    StationPriceMissingIff(Stations(t.rows, out[i].key), f);
  }

  lemma StationPriceMissingIff(s: seq<StationRecord>, f: Fuel)
    ensures MeanPresent(StationPrices(s, f)).None? <==> forall j :: 0 <= j < |s| ==> PriceOf(s[j].prices, f).None?
  {
    assert forall j :: 0 <= j < |s| ==> StationPrices(s, f)[j] == PriceOf(s[j].prices, f);
  }

  /** A key occurs in the cleaned table exactly when a loaded station with a region has it. */
  lemma CleanKeyIsStationKey(t: Table, c: seq<CleanRow>, k: string)
    requires CleanTable(t) == Ok(c)
    ensures IsRowKey(c, k) <==> IsStationKey(t.rows, k)
  {
    GroupIsStations(t, c, k);
    KeyOfEqualGroups(c, t.rows, k);
  }

  /** A key has rows exactly when it has stations, once its group and its stations are equally many. */
  lemma KeyOfEqualGroups(c: seq<CleanRow>, rows: seq<StationRecord>, k: string)
    requires |Group(c, k)| == |Stations(rows, k)|
    ensures IsRowKey(c, k) <==> IsStationKey(rows, k)
  {
    var g, s := Group(c, k), Stations(rows, k);
    if IsRowKey(c, k) {
      var i :| 0 <= i < |c| && c[i].key == Some(k);
      assert c[i] in c;
      assert c[i] in g;
      var r := s[0];
      assert r in s;
      var j :| 0 <= j < |rows| && rows[j] == r;
      assert IsStationKey(rows, k);
    }
    if IsStationKey(rows, k) {
      var j :| 0 <= j < |rows| && rows[j].region.Some? && KeyOf(rows[j]) == Some(k);
      var r := rows[j];
      assert r in rows;
      assert r in s;
      var x := g[0];
      assert x in g;
      var i :| 0 <= i < |c| && c[i] == x;
      assert IsRowKey(c, k);
    }
  }

  /** Some loaded station with a region (and a postal code and a city) has the key `k`. */
  predicate IsStationKey(rows: seq<StationRecord>, k: string)
  {
    exists j :: 0 <= j < |rows| && rows[j].region.Some? && KeyOf(rows[j]) == Some(k)
  }

  /**
   * One output row per key, no key twice, and the keys are exactly those of
   * the loaded stations that have a region.
   */
  lemma OutputKeysAreStationKeys(t: Table, out: seq<CityAggregate>)
    requires Run(t) == Ok(out)
    ensures forall i, j :: 0 <= i < j < |out| ==> out[i].key != out[j].key
    ensures forall k :: IsOutputKey(out, k) <==> IsStationKey(t.rows, k)
  {
    var c := CleanTable(t).value;
    assert Compute(c) == Ok(out);
    OneRowPerKey(c, out);
    forall k ensures IsOutputKey(out, k) <==> IsStationKey(t.rows, k) {
      CleanKeyIsStationKey(t, c, k);
    }
  }

  /**
   * The run fails exactly when a column is missing, a kept row's geometry
   * does not decode, no kept row has a key, or some key's coordinate mean
   * raises.
   */
  lemma RunFailsIff(t: Table)
    ensures Run(t).Err? <==>
              Project(t).Err?
              || (exists i :: 0 <= i < |Kept(t)| && DecodeGeometry(Kept(t)[i].geom).Err?)
              || (CleanTable(t).Ok? && |Keys(CleanTable(t).value)| == 0)
              || (CleanTable(t).Ok? && exists i :: (0 <= i < |Keys(CleanTable(t).value)| &&
                   CityOf(CleanTable(t).value, Keys(CleanTable(t).value)[i]).Err?))
  {
    if Project(t).Ok? {
      assert CleanTable(t) == DecodeRows(Kept(t));
    }
    if CleanTable(t).Ok? {
      var c := CleanTable(t).value;
      RunIsCompute(t, c);
      ComputeFailsIff(c);
    }
  }

  lemma RunIsCompute(t: Table, c: seq<CleanRow>)
    requires CleanTable(t) == Ok(c)
    ensures Run(t) == Compute(c)
  {
  }

  /** The computation fails exactly when there is no key or some key's reference row fails. */
  lemma ComputeFailsIff(c: seq<CleanRow>)
    ensures Compute(c).Err? <==> |Keys(c)| == 0 || exists i :: 0 <= i < |Keys(c)| && CityOf(c, Keys(c)[i]).Err?
  {
    ComputeSucceedsIff(c);
  }

  /**
   * Once cleaning succeeds, the run raises `NoKeyedRows` exactly when no
   * station that has a region has a key.
   */
  lemma RunFailsWithoutStationKeys(t: Table)
    requires CleanTable(t).Ok?
    ensures Run(t) == Err(NoKeyedRows) <==> forall k :: !IsStationKey(t.rows, k)
  {
    var c := CleanTable(t).value;
    RunIsCompute(t, c);
    ComputeFailsWithoutKeys(c);
    NoRowKeys(c);
    StationKeysOfClean(t, c);
  }

  /** The cleaned table and the stations with a region have the same keys. */
  lemma StationKeysOfClean(t: Table, c: seq<CleanRow>)
    requires CleanTable(t) == Ok(c)
    ensures forall k :: IsRowKey(c, k) <==> IsStationKey(t.rows, k)
  {
    forall k ensures IsRowKey(c, k) <==> IsStationKey(t.rows, k) {
      CleanKeyIsStationKey(t, c, k);
    }
  }

  /** No row has a key exactly when no key is the key of a row. */
  lemma NoRowKeys(c: seq<CleanRow>)
    ensures (forall i :: 0 <= i < |c| ==> c[i].key.None?) <==> forall k :: !IsRowKey(c, k)
  {
    if !forall i :: 0 <= i < |c| ==> c[i].key.None? {
      var i :| 0 <= i < |c| && c[i].key.Some?;
      assert IsRowKey(c, c[i].key.value);
    }
  }

  /** The next frame and the outcome of `_data_cleaning`, which raises on failure. */
  function CleaningStep(f: Frame): (Frame, Outcome<Error>)
  {
    match f
    case Unloaded => (f, Fail(NoDataFrame))
    case Loaded(t) =>
      (match Project(t)
       case Err(e) => (f, Fail(e))
       case Ok(projected) =>
         var kept := DropMissingRegion(AddKeys(projected.rows));
         (match DecodeRows(kept)
          case Err(e) => (Keyed(kept), Fail(e))
          case Ok(c) => (Clean(c), Pass)))
    case _ => (f, Fail(MissingColumns(Missing(UsefulColumns(), Columns(f)))))
  }

  /** The next frame and the outcome of `_compute_new_dataframe` on a cleaned frame. */
  function ComputeStep(f: Frame): (Frame, Outcome<Error>)
    requires f.Clean?
  {
    match Compute(f.clean)
    case Err(e) => (f, Fail(e))
    case Ok(out) => (Aggregated(out), Pass)
  }

  /** `process_data`: cleaning, then, if it did not raise, the computation. */
  function ProcessStep(f: Frame): (Frame, Outcome<Error>)
  {
    var (g, o) := CleaningStep(f);
    if o.Fail? then (g, o) else ComputeStep(g)
  }

  /** On a loaded table, processing yields the aggregated frame exactly when the run succeeds. */
  lemma ProcessLoaded(t: Table)
    ensures var (g, o) := ProcessStep(Loaded(t));
      (o.Pass? <==> Run(t).Ok?)
      && (Run(t).Ok? ==> g == Aggregated(Run(t).value))
      && (Run(t).Err? ==> o == Fail(Run(t).error))
  {
  }

  /** Processing a holder whose loader failed raises and changes nothing. */
  lemma ProcessUnloaded()
    ensures ProcessStep(Unloaded) == (Unloaded, Fail(NoDataFrame))
  {
  }

  lemma {:induction false} MissingNothing(want: seq<string>, have: seq<string>)
    requires forall i :: 0 <= i < |want| ==> want[i] in have
    ensures Missing(want, have) == []
  {
    if |want| > 0 {
      MissingNothing(want[1..], have);
    }
  }

  /**
   * A second `process_data` raises: the output frame has lost `Code postal`,
   * `Ville` and `geom`, and the frame is left as it was.
   */
  lemma ProcessTwiceFails(cities: seq<CityAggregate>)
    ensures ProcessStep(Aggregated(cities)) == (Aggregated(cities), Fail(MissingColumns(["Code postal", "Ville", "geom"])))
  {
    OutputLacksInputColumns(cities);
  }

  lemma OutputLacksInputColumns(cities: seq<CityAggregate>)
    ensures Missing(UsefulColumns(), Columns(Aggregated(cities))) == ["Code postal", "Ville", "geom"]
  {
    var prices := PriceColumns();
    assert UsefulColumns() == ["Région"] + (["Département"] + (["Code postal"] + (["Ville"] + (["geom"] + prices))));
    MissingAfterAggregation(prices, Columns(Aggregated(cities)));
  }

  lemma MissingAfterAggregation(prices: seq<string>, have: seq<string>)
    requires prices == ["Gazole_prix", "SP98_prix", "SP95_prix", "E85_prix", "E10_prix", "GPLc_prix"]
    requires have == ["cp_ville", "Région", "Département"] + prices + ["Latitude", "Longitude", "Apparition"]
    ensures Missing(["Région"] + (["Département"] + (["Code postal"] + (["Ville"] + (["geom"] + prices)))), have) == ["Code postal", "Ville", "geom"]
  {
    assert have[1] == "Région" && have[2] == "Département";
    assert forall i :: 0 <= i < |prices| ==> prices[i] == have[i + 3];
    assert "Code postal" !in have;
    assert "Ville" !in have;
    assert "geom" !in have;
    MissingNothing(prices, have);
    MissingFive("Région", "Département", "Code postal", "Ville", "geom", prices, have);
  }

  /** Five leading names of which the last three are absent, then names all present. */
  lemma MissingFive(a: string, b: string, c: string, d: string, e: string, rest: seq<string>, have: seq<string>)
    requires a in have && b in have && c !in have && d !in have && e !in have
    requires Missing(rest, have) == []
    ensures Missing([a] + ([b] + ([c] + ([d] + ([e] + rest)))), have) == [c, d, e]
  {
    var re := [e] + rest;
    var rd := [d] + re;
    var rc := [c] + rd;
    var rb := [b] + rc;
    MissingAbsent(e, rest, have, []);
    assert [e] + [] == [e];
    MissingAbsent(d, re, have, [e]);
    MissingAbsent(c, rd, have, [d, e]);
    MissingPresent(b, rc, have, [c, d, e]);
    MissingPresent(a, rb, have, [c, d, e]);
  }

  lemma MissingAbsent(x: string, rest: seq<string>, have: seq<string>, m: seq<string>)
    requires x !in have && Missing(rest, have) == m
    ensures Missing([x] + rest, have) == [x] + m
  {
    MissingCons(x, rest, have);
  }

  lemma MissingPresent(x: string, rest: seq<string>, have: seq<string>, m: seq<string>)
    requires x in have && Missing(rest, have) == m
    ensures Missing([x] + rest, have) == m
  {
    MissingCons(x, rest, have);
    assert [] + m == m;
  }
  lemma MissingCons(x: string, rest: seq<string>, have: seq<string>)
    ensures Missing([x] + rest, have) == (if x in have then [] else [x]) + Missing(rest, have)
  {
    assert ([x] + rest)[1..] == rest;
  }

}
