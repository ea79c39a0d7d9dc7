/**
 * Worked instances of the pipeline on small concrete tables: the mean of a
 * price column with a gap, the decoding of a geometry text, a coordinate
 * mean with an empty geometry, and a three-station table end to end.
 */
module Scenarios {
  import opened Wrappers
  import opened Frames
  import opened Text
  import opened Cleaning
  import opened Grouping
  import opened Pipeline

  /** `float` on the two geometry pieces used below. */
  lemma FloatOfPieces()
    ensures Float("48.0") == Some(48.0)
    ensures Float("2.0") == Some(2.0)
  {
    DigitsOfPieces();
    FloatOfWhole("48", 48);
    FloatOfWhole("2", 2);
    assert "48" + ".0" == "48.0" && "2" + ".0" == "2.0";
  }

  /** The digits of the two pieces. */
  lemma DigitsOfPieces()
    ensures AllDigits("48") && DigitsValue("48") == 48
    ensures AllDigits("2") && DigitsValue("2") == 2
  {
    assert "48"[..1] == "4" && "4"[..0] == "";
    assert "2"[..0] == "";
  }

  /** A whole number written with one zero decimal, `n.0`, is read as `n`. */
  lemma FloatOfWhole(whole: string, n: nat)
    requires AllDigits(whole) && |whole| > 0 && DigitsValue(whole) == n
    ensures Float(whole + ".0") == Some(n as real)
  {
    assert AllDigits("0") && DigitsValue("0") == 0 by {
      assert "0"[..0] == "";
    }
    assert Pow10(|"0"|) == 10;
    assert DecimalValue(whole, "0") == n as real + 0.0 / 10.0;
    assert whole + "." + "0" == whole + ".0";
    FloatOfDecimal(whole, "0");
  }

  /** A text without a comma in which the separator cannot start. */
  lemma NoSeparatorIn(a: string)
    requires forall i :: 0 <= i < |a| ==> a[i] != ','
    ensures forall i :: 0 <= i < |a| ==> !StartsWith(a[i..], GeomSeparator)
  {
    forall i | 0 <= i < |a| ensures !StartsWith(a[i..], GeomSeparator) {
      assert a[i..][0] == a[i];
    }
  }

  /** Two comma-free texts joined by the separator split back into the two. */
  lemma SplitPair(a: string, b: string)
    requires forall i :: 0 <= i < |a| ==> a[i] != ','
    requires forall i :: 0 <= i < |b| ==> b[i] != ','
    ensures Split(a + GeomSeparator + b, GeomSeparator) == [a, b]
  {
    var s := a + GeomSeparator + b;
    NoSeparatorIn(a);
    NoSeparatorIn(b);
    forall i | 0 <= i < |a| ensures !StartsWith(s[i..], GeomSeparator) {
      assert s[i..][0] == a[i..][0];
    }
    SplitAtFirst(a, b, GeomSeparator);
    SplitWhole(b, GeomSeparator);
  }

  /** Two comma-free numbers joined by the separator decode to the two numbers. */
  lemma DecodePair(a: string, b: string, x: real, y: real)
    requires forall i :: 0 <= i < |a| ==> a[i] != ','
    requires forall i :: 0 <= i < |b| ==> b[i] != ','
    requires Float(a) == Some(x) && Float(b) == Some(y)
    ensures DecodeGeometry(Some(a + GeomSeparator + b)) == Ok([x, y])
  {
    var s := a + GeomSeparator + b;
    SplitPair(a, b);
    assert a != "" && b != "";
    assert NonEmpty([a, b]) == [a, b] by {
      assert [b][1..] == [];
      assert NonEmpty([b]) == [b] + NonEmpty([]);
      assert [a, b][1..] == [b];
      assert NonEmpty([a, b]) == [a] + NonEmpty([b]);
    }
    var r := DecodeGeometry(Some(s));
    assert r.Ok?;
    assert |r.value| == 2 && Float(a) == Some(r.value[0]) && Float(b) == Some(r.value[1]);
    assert r.value == [x, y];
  }

  /** A point geometry decodes to its latitude and longitude, in order. */
  lemma DecodePoint()
    ensures DecodeGeometry(Some("48.0, 2.0")) == Ok([48.0, 2.0])
  {
    DigitsOfPieces();
    DecodeWholePoint("48", "2", 48, 2);
    PointText();
  }

  lemma PointText()
    ensures ("48" + ".0") + GeomSeparator + ("2" + ".0") == "48.0, 2.0"
  {
  }

  /** Two whole numbers `m.0, n.0` decode to `[m, n]`. */
  lemma DecodeWholePoint(x: string, y: string, m: nat, n: nat)
    requires AllDigits(x) && |x| > 0 && DigitsValue(x) == m
    requires AllDigits(y) && |y| > 0 && DigitsValue(y) == n
    ensures DecodeGeometry(Some((x + ".0") + GeomSeparator + (y + ".0"))) == Ok([m as real, n as real])
  {
    WholePiece(x, m);
    WholePiece(y, n);
    DecodePair(x + ".0", y + ".0", m as real, n as real);
  }

  /** Digits followed by `.0`: a piece without a comma that `float` reads as the whole number. */
  lemma WholePiece(x: string, m: nat)
    requires AllDigits(x) && |x| > 0 && DigitsValue(x) == m
    ensures forall i :: 0 <= i < |x + ".0"| ==> (x + ".0")[i] != ','
    ensures Float(x + ".0") == Some(m as real)
  {
    FloatOfWhole(x, m);
    forall i | 0 <= i < |x + ".0"| ensures (x + ".0")[i] != ',' {
      if i < |x| {
        assert (x + ".0")[i] == x[i] && IsDigit(x[i]);
      }
    }
  }

  /** A price column `[p1, p2, missing]` averages to the midpoint: the gap counts in neither sum nor size. */
  lemma MeanSkipsTheGap(p1: real, p2: real)
    ensures MeanPresent([Some(p1), Some(p2), None]) == Some((p1 + p2) / 2.0)
  {
    MeanPresentSkipsMissing([Some(p1), Some(p2)], []);
    assert [Some(p1), Some(p2)] + [None] + [] == [Some(p1), Some(p2), None];
    assert [Some(p1), Some(p2)] + [] == [Some(p1), Some(p2)];
    MeanOfTwo(p1, p2);
  }

  /** A station with the point and one with an empty geometry: the mean is the point itself. */
  lemma MeanIgnoresEmptyGeometry()
    ensures DecodeGeometry(Some("")) == Ok([])
    ensures MeanCoords([[48.0, 2.0], []]) == Ok((48.0, 2.0))
  {
    MeanCoordsSkipsEmpty([[48.0, 2.0]], []);
    assert [[48.0, 2.0]] + [[]] + [] == [[48.0, 2.0], []];
    assert [[48.0, 2.0]] + [] == [[48.0, 2.0]];
    MeanCoordsSingle([48.0, 2.0]);
  }

  /** Two stations at different points: the city sits at their midpoint. */
  lemma MeanCoordsMidpoint()
    ensures MeanCoords([[0.0, 0.0], [2.0, 4.0]]) == Ok((1.0, 2.0))
  {
    MeanCoordsAllUsable([[0.0, 0.0], [2.0, 4.0]]);
    assert Firsts([[0.0, 0.0], [2.0, 4.0]]) == [0.0, 2.0];
    assert Seconds([[0.0, 0.0], [2.0, 4.0]]) == [0.0, 4.0];
    assert [0.0, 2.0][1..] == [2.0] && [2.0][1..] == [];
    assert Sum([0.0, 2.0]) == 2.0 && Mean([0.0, 2.0]) == 1.0;
    assert [0.0, 4.0][1..] == [4.0] && [4.0][1..] == [];
    assert Sum([0.0, 4.0]) == 4.0 && Mean([0.0, 4.0]) == 2.0;
  }

  /** One fuel reported, the five others missing. */
  function OnlyGazole(price: real): Prices
  {
    Prices(Some(price), None, None, None, None, None)
  }

  /** A station of the table used below: region, department, postal code and city all present. */
  function Station(region: string, department: string, postalCode: string, city: string, geom: string, price: real): StationRecord
  {
    StationRecord(Some(region), Some(department), Some(postalCode), Some(city), Some(geom), OnlyGazole(price))
  }

  lemma ProjectKeepsAll(t: Table)
    requires t.columns == UsefulColumns()
    ensures Project(t) == Ok(t)
  {
    var cols := t.columns;
    assert forall i :: 0 <= i < |cols| ==> cols[i] in cols;
    MissingNothing(cols, cols);
  }

  /**
   * Cleaning a table of two stations of one city, the first with a located
   * geometry and the second with an empty one, and a third station without a
   * region: the third is dropped before its geometry is looked at.
   */
  lemma CleanTwoAndOne(a: StationRecord, b: StationRecord, other: StationRecord, lat: real, lon: real)
    requires a.region.Some? && b.region.Some? && other.region.None?
    requires DecodeGeometry(a.geom) == Ok([lat, lon]) && b.geom == Some("")
    ensures CleanTable(Table(UsefulColumns(), [a, b, other]))
         == Ok([WithCoords(KeyRow(a), [lat, lon]), WithCoords(KeyRow(b), [])])
  {
    var t := Table(UsefulColumns(), [a, b, other]);
    ProjectKeepsAll(t);
    KeysOfThree(a, b, other);
    KeepTwo(KeyRow(a), KeyRow(b), KeyRow(other));
    DecodeTwo(KeyRow(a), KeyRow(b), lat, lon);
  }

  lemma KeysOfThree(a: StationRecord, b: StationRecord, c: StationRecord)
    ensures AddKeys([a, b, c]) == [KeyRow(a), KeyRow(b), KeyRow(c)]
  {
  }

  lemma KeepTwo(ka: KeyedRow, kb: KeyedRow, ko: KeyedRow)
    requires ka.region.Some? && kb.region.Some? && ko.region.None?
    ensures DropMissingRegion([ka, kb, ko]) == [ka, kb]
  {
    assert [ko][1..] == [] && DropMissingRegion([ko]) == [];
    assert [kb, ko][1..] == [ko];
    assert DropMissingRegion([kb, ko]) == [kb] + DropMissingRegion([ko]);
    assert [ka, kb, ko][1..] == [kb, ko];
    assert DropMissingRegion([ka, kb, ko]) == [ka] + DropMissingRegion([kb, ko]);
  }

  lemma DecodeTwo(ka: KeyedRow, kb: KeyedRow, lat: real, lon: real)
    requires DecodeGeometry(ka.geom) == Ok([lat, lon]) && kb.geom == Some("")
    ensures DecodeRows([ka, kb]) == Ok([WithCoords(ka, [lat, lon]), WithCoords(kb, [])])
  {
    var rows := [ka, kb];
    var d := DecodeRows(rows);
    assert DecodeGeometry(rows[0].geom).Ok? && DecodeGeometry(rows[1].geom).Ok?;
    assert d.value[0] == WithCoords(ka, [lat, lon]);
    assert d.value[1] == WithCoords(kb, []);
    assert d.value == [WithCoords(ka, [lat, lon]), WithCoords(kb, [])];
  }

  /** Two present prices average to their midpoint. */
  lemma MeanOfTwo(p1: real, p2: real)
    ensures MeanPresent([Some(p1), Some(p2)]) == Some((p1 + p2) / 2.0)
  {
    var xs := [Some(p1), Some(p2)];
    assert xs[1..] == [Some(p2)] && xs[1..][1..] == [];
    assert Present(xs) == [p1, p2];
    assert [p2][1..] == [] && Sum([p2]) == p2 + Sum([]);
    assert [p1, p2][1..] == [p2] && Sum([p1, p2]) == p1 + Sum([p2]);
    assert Mean([p1, p2]) == (p1 + p2) / 2.0;
  }

  /** Both stations report gazole only: the city reports the mean gazole price only. */
  lemma PricesOfTwo(ca: CleanRow, cb: CleanRow, p1: real, p2: real)
    requires ca.prices == OnlyGazole(p1) && cb.prices == OnlyGazole(p2)
    ensures MeanPrices([ca, cb]) == OnlyGazole((p1 + p2) / 2.0)
  {
    var c := [ca, cb];
    forall f: Fuel ensures PriceColumn(c, f) == [PriceOf(ca.prices, f), PriceOf(cb.prices, f)] {
    }
    MeanOfTwo(p1, p2);
    forall f: Fuel ensures PriceOf(MeanPrices(c), f) == PriceOf(OnlyGazole((p1 + p2) / 2.0), f) {
      MeanPriceOf(c, f);
    }
    SamePricesPerFuel(MeanPrices(c), OnlyGazole((p1 + p2) / 2.0));
  }

  /** Prices that agree fuel by fuel are equal. */
  lemma SamePricesPerFuel(p: Prices, q: Prices)
    requires forall f: Fuel :: PriceOf(p, f) == PriceOf(q, f)
    ensures p == q
  {
    assert PriceOf(p, Gazole) == PriceOf(q, Gazole) && PriceOf(p, SP98) == PriceOf(q, SP98);
    assert PriceOf(p, SP95) == PriceOf(q, SP95) && PriceOf(p, E85) == PriceOf(q, E85);
    assert PriceOf(p, E10) == PriceOf(q, E10) && PriceOf(p, GPLc) == PriceOf(q, GPLc);
  }

  /** The position of two stations, the second without a geometry, is the first one's. */
  lemma CoordsOfTwo(ca: CleanRow, cb: CleanRow, lat: real, lon: real)
    requires ca.coords == [lat, lon] && cb.coords == []
    ensures MeanCoords(CoordLists([ca, cb])) == Ok((lat, lon))
  {
    assert CoordLists([ca, cb]) == [[lat, lon], []];
    MeanCoordsSkipsEmpty([[lat, lon]], []);
    assert [[lat, lon]] + [[]] + [] == [[lat, lon], []];
    assert [[lat, lon]] + [] == [[lat, lon]];
    MeanCoordsSingle([lat, lon]);
  }

  /** Two rows of one key: that key alone, and its group is both rows. */
  lemma GroupOfTwo(ca: CleanRow, cb: CleanRow, k: string)
    requires ca.key == Some(k) && cb.key == Some(k)
    ensures Keys([ca, cb]) == [k] && Group([ca, cb], k) == [ca, cb]
  {
    var c := [ca, cb];
    assert c[..1] == [ca] && [ca][..0] == [];
    assert Keys([ca]) == [k];
    assert Group([ca], k) == [ca];
  }

  /** A table of one key whose summary succeeds computes exactly that one row. */
  lemma ComputeOneKey(rows: seq<CleanRow>, k: string, row: CityAggregate)
    requires Keys(rows) == [k] && CityOf(rows, k) == Ok(row)
    ensures Compute(rows) == Ok([row])
  {
    OneKeySucceeds(rows, k);
    OneKeyRow(rows, k);
    SingleRow(Compute(rows).value, row);
  }

  lemma OneKeySucceeds(rows: seq<CleanRow>, k: string)
    requires Keys(rows) == [k] && CityOf(rows, k).Ok?
    ensures Compute(rows).Ok?
  {
    var rs := GroupCoordsAll(rows);
    ComputeFailsWithCoordinates(rows);
    CoordMeansSucceedsIff(rows, [k], rs);
    CityOfFailsWithCoords(rows, k, rs[0]);
  }

  lemma OneKeyRow(rows: seq<CleanRow>, k: string)
    requires Keys(rows) == [k] && Compute(rows).Ok?
    ensures |Compute(rows).value| == 1 && CityOf(rows, k) == Ok(Compute(rows).value[0])
  {
    ComputeByKey(rows);
    assert Keys(rows)[0] == k;
  }

  lemma SingleRow(out: seq<CityAggregate>, row: CityAggregate)
    requires |out| == 1 && out[0] == row
    ensures out == [row]
  {
  }

  /** The output row of two cleaned stations sharing key `k`, the second without a position. */
  lemma ComputeTwo(ca: CleanRow, cb: CleanRow, k: string, lat: real, lon: real, p1: real, p2: real)
    requires ca.key == Some(k) && cb.key == Some(k) && ca.coords == [lat, lon] && cb.coords == []
    requires ca.region.Some? && ca.department.Some?
    requires ca.prices == OnlyGazole(p1) && cb.prices == OnlyGazole(p2)
    ensures Compute([ca, cb]) == Ok([CityAggregate(ca.region, ca.department, k, OnlyGazole((p1 + p2) / 2.0), lat, lon, 2)])
  {
    var c := [ca, cb];
    GroupOfTwo(ca, cb, k);
    CoordsOfTwo(ca, cb, lat, lon);
    PricesOfTwo(ca, cb, p1, p2);
    assert Regions(c)[0] == ca.region && Departments(c)[0] == ca.department;
    var row := CityAggregate(ca.region, ca.department, k, OnlyGazole((p1 + p2) / 2.0), lat, lon, 2);
    assert CityOf(c, k) == Ok(row);
    ComputeOneKey(c, k, row);
  }

  /** Running the pipeline is cleaning, then the computation on what cleaning kept. */
  lemma RunOfCleaned(t: Table, c: seq<CleanRow>, out: seq<CityAggregate>)
    requires CleanTable(t) == Ok(c) && Compute(c) == Ok(out)
    ensures Run(t) == Ok(out)
  {
  }

  /**
   * Two stations of one city with gazole prices `p1` and `p2`, one located at
   * `(lat, lon)` and one with an empty geometry, and a third station without
   * a region: exactly one output row, keyed `postal code + " " + city`, with
   * the mean price, that position, a count of 2 and the other fuels missing.
   */
  lemma TwoStationsOneDropped(region: string, department: string, postalCode: string, city: string,
                              point: string, lat: real, lon: real, p1: real, p2: real, other: StationRecord)
    requires DecodeGeometry(Some(point)) == Ok([lat, lon]) && other.region.None?
    ensures Run(Table(UsefulColumns(), [Station(region, department, postalCode, city, point, p1),
                                        Station(region, department, postalCode, city, "", p2), other]))
         == Ok([CityAggregate(Some(region), Some(department), CityKey(postalCode, city),
                              OnlyGazole((p1 + p2) / 2.0), lat, lon, 2)])
  {
    var a := Station(region, department, postalCode, city, point, p1);
    var b := Station(region, department, postalCode, city, "", p2);
    CleanTwoAndOne(a, b, other, lat, lon);
    ComputeOfStations(region, department, postalCode, city, point, lat, lon, p1, p2);
    RunOfCleaned(Table(UsefulColumns(), [a, b, other]),
                 [WithCoords(KeyRow(a), [lat, lon]), WithCoords(KeyRow(b), [])],
                 [CityAggregate(Some(region), Some(department), CityKey(postalCode, city), OnlyGazole((p1 + p2) / 2.0), lat, lon, 2)]);
  }

  /** The computation on the two cleaned stations of the city. */
  lemma ComputeOfStations(region: string, department: string, postalCode: string, city: string,
                          point: string, lat: real, lon: real, p1: real, p2: real)
    ensures Compute([WithCoords(KeyRow(Station(region, department, postalCode, city, point, p1)), [lat, lon]),
                     WithCoords(KeyRow(Station(region, department, postalCode, city, "", p2)), [])])
         == Ok([CityAggregate(Some(region), Some(department), CityKey(postalCode, city), OnlyGazole((p1 + p2) / 2.0), lat, lon, 2)])
  {
    var ca := WithCoords(KeyRow(Station(region, department, postalCode, city, point, p1)), [lat, lon]);
    var cb := WithCoords(KeyRow(Station(region, department, postalCode, city, "", p2)), []);
    var k := CityKey(postalCode, city);
    assert ca.key == Some(k) && cb.key == Some(k);
    ComputeTwo(ca, cb, k, lat, lon, p1, p2);
  }

  /**
   * The instance with two Paris stations priced 1.50 and 1.60 and a Lyon
   * station without a region: one row, mean price 1.55, count 2.
   */
  lemma ParisAndLyon(lyon: StationRecord)
    requires lyon.region.None?
    ensures Run(Table(UsefulColumns(), [Station("Île-de-France", "Paris", "75001", "Paris", "48.0, 2.0", 1.50),
                                        Station("Île-de-France", "Paris", "75001", "Paris", "", 1.60), lyon]))
         == Ok([CityAggregate(Some("Île-de-France"), Some("Paris"), "75001 Paris", OnlyGazole(1.55), 48.0, 2.0, 2)])
  {
    DecodePoint();
    TwoStationsOneDropped("Île-de-France", "Paris", "75001", "Paris", "48.0, 2.0", 48.0, 2.0, 1.50, 1.60, lyon);
    ParisKey();
  }

  /** The key of the Paris stations. */
  lemma ParisKey()
    ensures CityKey("75001", "Paris") == "75001 Paris"
  {
  }


  /**
   * A table whose only station lacks a region cleans to nothing, and the
   * coordinate reduction over no group raises.
   */
  lemma LyonAlone(lyon: StationRecord)
    requires lyon.region.None?
    ensures Run(Table(UsefulColumns(), [lyon])) == Err(NoKeyedRows)
  {
    var t := Table(UsefulColumns(), [lyon]);
    CleanOnlyUnregioned(t, lyon);
    ComputeFailsWithoutKeys([]);
  }

  lemma CleanOnlyUnregioned(t: Table, lyon: StationRecord)
    requires t == Table(UsefulColumns(), [lyon]) && lyon.region.None?
    ensures CleanTable(t) == Ok([])
  {
    ProjectKeepsAll(t);
    DropOnlyUnregioned(lyon);
    assert DecodeRows([]) == Ok([]);
  }

  lemma DropOnlyUnregioned(lyon: StationRecord)
    requires lyon.region.None?
    ensures DropMissingRegion(AddKeys([lyon])) == []
  {
    assert AddKeys([lyon]) == [KeyRow(lyon)];
  }
}
