/**
 * The grouping stage of `DataFrameHolder._compute_new_dataframe`: four
 * reductions over `cp_ville`, then inner joins on it; and `_mean_coords`.
 */
module Grouping {
  import opened Wrappers
  import opened Frames
  import opened Merge

  /**
   * The distinct keys of the rows, in order of first appearance. A row with
   * a missing key belongs to no group (groupby drops NaN keys).
   */
  function Keys(rows: seq<CleanRow>): (ks: seq<string>)
    ensures forall i, j :: 0 <= i < j < |ks| ==> ks[i] != ks[j]
    ensures forall k :: k in ks <==> exists i :: 0 <= i < |rows| && rows[i].key == Some(k)
    decreases |rows|
  {
    if |rows| == 0 then []
    else
      var init := rows[..|rows| - 1];
      var ks := Keys(init);
      assert forall i :: 0 <= i < |init| ==> init[i] == rows[i];
      match rows[|rows| - 1].key
      case Some(k) => if k in ks then ks else ks + [k]
      case None => ks
  }

  /** The rows whose key is `k`, in row order. */
  function Group(rows: seq<CleanRow>, k: string): (g: seq<CleanRow>)
    ensures |g| <= |rows|
    ensures forall i :: 0 <= i < |g| ==> g[i].key == Some(k)
    ensures forall r :: r in g <==> r in rows && r.key == Some(k)
    decreases |rows|
  {
    if |rows| == 0 then []
    else
      var init, last := rows[..|rows| - 1], rows[|rows| - 1];
      assert rows == init + [last];
      Group(init, k) + (if last.key == Some(k) then [last] else [])
  }

  /** Grouping distributes over concatenation of row sequences. */
  lemma {:induction false} GroupAppend(a: seq<CleanRow>, b: seq<CleanRow>, k: string)
    ensures Group(a + b, k) == Group(a, k) + Group(b, k)
    decreases |b|
  {
    if |b| == 0 {
      assert a + b == a;
    } else {
      var init, last := b[..|b| - 1], b[|b| - 1];
      assert (a + b)[..|a + b| - 1] == a + init;
      assert (a + b)[|a + b| - 1] == last;
      GroupAppend(a, init, k);
    }
  }

  /** The group of a row sequence, read from its first row. */
  lemma GroupCons(r: CleanRow, rest: seq<CleanRow>, k: string)
    ensures Group([r] + rest, k) == (if r.key == Some(k) then [r] else []) + Group(rest, k)
  {
    GroupAppend([r], rest, k);
    var single := if r.key == Some(k) then [r] else [];
    assert [r][..0] == [] && [r][0] == r;
    assert Group([r], k) == Group([], k) + single;
    assert Group([], k) + single == single;
  }

  /** `first()` on one column: the first present value, in row order. */
  function FirstPresent<T>(xs: seq<Option<T>>): (r: Option<T>)
    ensures r.None? <==> forall i :: 0 <= i < |xs| ==> xs[i].None?
    ensures r.Some? ==> exists i :: 0 <= i < |xs| && xs[i] == r && forall j :: 0 <= j < i ==> xs[j].None?
  {
    if |xs| == 0 then None
    else if xs[0].Some? then xs[0]
    else
      var r := FirstPresent(xs[1..]);
      assert forall i :: 0 < i < |xs| ==> xs[i] == xs[1..][i - 1];
      assert r.Some? ==> exists i :: 0 <= i < |xs| && xs[i] == r && forall j :: 0 <= j < i ==> xs[j].None? by {
        if r.Some? {
          var i :| 0 <= i < |xs[1..]| && xs[1..][i] == r && forall j :: 0 <= j < i ==> xs[1..][j].None?;
          assert xs[i + 1] == r;
        }
      }
      r
  }

  function Regions(g: seq<CleanRow>): seq<Option<string>>
  {
    seq(|g|, i requires 0 <= i < |g| => g[i].region)
  }

  function Departments(g: seq<CleanRow>): seq<Option<string>>
  {
    seq(|g|, i requires 0 <= i < |g| => g[i].department)
  }

  /** One fuel's price column of a group. */
  function PriceColumn(g: seq<CleanRow>, f: Fuel): seq<Option<real>>
  {
    seq(|g|, i requires 0 <= i < |g| => PriceOf(g[i].prices, f))
  }

  /** The decoded `geom` column of a group. */
  function CoordLists(g: seq<CleanRow>): seq<seq<real>>
  {
    seq(|g|, i requires 0 <= i < |g| => g[i].coords)
  }

  function Sum(xs: seq<real>): real
  {
    if |xs| == 0 then 0.0 else xs[0] + Sum(xs[1..])
  }

  /** `sum(xs) / len(xs)`. */
  function Mean(xs: seq<real>): real
    requires |xs| > 0
  {
    Sum(xs) / (|xs| as real)
  }

  /** A sum of values within `[lo, hi]` lies within `[n * lo, n * hi]`. */
  lemma {:induction false} SumWithin(xs: seq<real>, lo: real, hi: real)
    requires forall i :: 0 <= i < |xs| ==> lo <= xs[i] <= hi
    ensures (|xs| as real) * lo <= Sum(xs) <= (|xs| as real) * hi
  {
    if |xs| > 0 {
      assert forall i :: 0 <= i < |xs[1..]| ==> xs[1..][i] == xs[i + 1];
      SumWithin(xs[1..], lo, hi);
    }
  }

  /** The mean of values within `[lo, hi]` lies within `[lo, hi]`. */
  lemma MeanWithin(xs: seq<real>, lo: real, hi: real)
    requires |xs| > 0
    requires forall i :: 0 <= i < |xs| ==> lo <= xs[i] <= hi
    ensures lo <= Mean(xs) <= hi
  {
    SumWithin(xs, lo, hi);
    var n := |xs| as real;
    assert Mean(xs) * n == Sum(xs);
  }

  /** The mean of `n` copies of one value is that value. */
  lemma {:induction false} MeanOfEqual(xs: seq<real>, v: real)
    requires |xs| > 0 && forall i :: 0 <= i < |xs| ==> xs[i] == v
    ensures Mean(xs) == v
  {
    SumWithin(xs, v, v);
  }

  /** The present values of a column, in order. */
  function Present(xs: seq<Option<real>>): (vs: seq<real>)
    ensures |vs| <= |xs|
    ensures |vs| == 0 <==> forall i :: 0 <= i < |xs| ==> xs[i].None?
    ensures forall v :: v in vs <==> Some(v) in xs
  {
    if |xs| == 0 then []
    else
      assert forall i :: 0 < i < |xs| ==> xs[i] == xs[1..][i - 1];
      (if xs[0].Some? then [xs[0].value] else []) + Present(xs[1..])
  }

  /**
   * `mean()` on one price column: the mean over the present values only,
   * and missing when no value is present.
   */
  function MeanPresent(xs: seq<Option<real>>): (r: Option<real>)
    ensures r.None? <==> forall i :: 0 <= i < |xs| ==> xs[i].None?
  {
    var vs := Present(xs);
    if |vs| == 0 then None else Some(Mean(vs))
  }

  lemma {:induction false} PresentAppend(a: seq<Option<real>>, b: seq<Option<real>>)
    ensures Present(a + b) == Present(a) + Present(b)
  {
    if |a| > 0 {
      assert (a + b)[1..] == a[1..] + b;
      PresentAppend(a[1..], b);
    } else {
      assert a + b == b;
    }
  }

  /**
   * A missing price changes neither the numerator nor the denominator: the
   * mean with one more missing value anywhere is the mean without it.
   */
  lemma MeanPresentSkipsMissing(a: seq<Option<real>>, b: seq<Option<real>>)
    ensures MeanPresent(a + [None] + b) == MeanPresent(a + b)
  {
    PresentAppend(a + [None], b);
    PresentAppend(a, [None]);
    PresentAppend(a, b);
    assert Present([None]) == [];
    assert Present(a) + [] == Present(a);
    SamePresentSameMean(a + [None] + b, a + b);
  }

  lemma SamePresentSameMean(xs: seq<Option<real>>, ys: seq<Option<real>>)
    requires Present(xs) == Present(ys)
    ensures MeanPresent(xs) == MeanPresent(ys)
  {
  }

  /** With every present price within `[lo, hi]`, so is their mean. */
  lemma MeanPresentWithin(xs: seq<Option<real>>, lo: real, hi: real)
    requires forall i :: 0 <= i < |xs| && xs[i].Some? ==> lo <= xs[i].value <= hi
    ensures MeanPresent(xs).Some? ==> lo <= MeanPresent(xs).value <= hi
  {
    var vs := Present(xs);
    if |vs| > 0 {
      forall i | 0 <= i < |vs| ensures lo <= vs[i] <= hi {
        assert vs[i] in vs;
        assert Some(vs[i]) in xs;
      }
      MeanWithin(vs, lo, hi);
    }
  }

  /** When every row reports a price, the mean is the plain mean of the column. */
  lemma {:induction false} MeanPresentAllReported(xs: seq<Option<real>>)
    requires |xs| > 0 && forall i :: 0 <= i < |xs| ==> xs[i].Some?
    ensures Present(xs) == seq(|xs|, i requires 0 <= i < |xs| => xs[i].value)
    ensures MeanPresent(xs) == Some(Mean(Present(xs)))
  {
    if |xs| > 1 {
      assert forall i :: 0 <= i < |xs[1..]| ==> xs[1..][i] == xs[i + 1];
      MeanPresentAllReported(xs[1..]);
    }
  }

  /** The mean price of one fuel over one group. */
  function FuelMean(g: seq<CleanRow>, f: Fuel): Option<real>
  {
    MeanPresent(PriceColumn(g, f))
  }

  /** The mean price of each fuel over one group. */
  function MeanPrices(g: seq<CleanRow>): Prices
  {
    PricesBy(f => FuelMean(g, f))
  }

  /** Each fuel's price of a group is the mean of that fuel's column. */
  lemma MeanPriceOf(g: seq<CleanRow>, f: Fuel)
    ensures PriceOf(MeanPrices(g), f) == MeanPresent(PriceColumn(g, f))
  {
  }

  /** The coordinate lists that are not empty (`if coord`). */
  function NonEmptyLists(ls: seq<seq<real>>): (es: seq<seq<real>>)
    ensures forall i :: 0 <= i < |es| ==> es[i] != []
    ensures forall e :: e in es <==> e in ls && e != []
  {
    if |ls| == 0 then []
    else (if ls[0] != [] then [ls[0]] else []) + NonEmptyLists(ls[1..])
  }

  lemma {:induction false} NonEmptyListsAppend(a: seq<seq<real>>, b: seq<seq<real>>)
    ensures NonEmptyLists(a + b) == NonEmptyLists(a) + NonEmptyLists(b)
  {
    if |a| > 0 {
      assert (a + b)[1..] == a[1..] + b;
      NonEmptyListsAppend(a[1..], b);
    } else {
      assert a + b == b;
    }
  }

  function Firsts(es: seq<seq<real>>): seq<real>
    requires forall i :: 0 <= i < |es| ==> |es[i]| >= 1
  {
    seq(|es|, i requires 0 <= i < |es| => es[i][0])
  }

  function Seconds(es: seq<seq<real>>): seq<real>
    requires forall i :: 0 <= i < |es| ==> |es[i]| >= 2
  {
    seq(|es|, i requires 0 <= i < |es| => es[i][1])
  }

  /** The pair of means over the non-empty lists, or why it raises. */
  function MeanOfEntries(entries: seq<seq<real>>): Result<(real, real), CoordFailure>
  {
    if exists i :: 0 <= i < |entries| && |entries[i]| < 2 then Err(IndexOutOfRange)
    else if |entries| == 0 then Err(DivisionByZero)
    else Ok((Mean(Firsts(entries)), Mean(Seconds(entries))))
  }

  /**
   * `_mean_coords`: the mean of the first and of the second component over
   * the non-empty coordinate lists. `coord[1]` on a one-element list raises
   * `IndexError`; with no non-empty list the division raises
   * `ZeroDivisionError`.
   */
  function MeanCoords(coordsList: seq<seq<real>>): (r: Result<(real, real), CoordFailure>)
    ensures r == Err(DivisionByZero) <==> forall i :: 0 <= i < |coordsList| ==> coordsList[i] == []
    ensures r == Err(IndexOutOfRange) <==> exists i :: 0 <= i < |coordsList| && |coordsList[i]| == 1
    ensures r.Ok? <==> (exists i :: 0 <= i < |coordsList| && coordsList[i] != [])
                       && forall i :: 0 <= i < |coordsList| && coordsList[i] != [] ==> |coordsList[i]| >= 2
  {
    var entries := NonEmptyLists(coordsList);
    assert forall i :: 0 <= i < |coordsList| && coordsList[i] != [] ==> coordsList[i] in entries;
    assert forall i :: 0 <= i < |entries| ==> entries[i] in coordsList;
    MeanOfEntries(entries)
  }

  /** An empty coordinate list contributes nothing to the coordinate mean. */
  lemma MeanCoordsSkipsEmpty(a: seq<seq<real>>, b: seq<seq<real>>)
    ensures MeanCoords(a + [[]] + b) == MeanCoords(a + b)
  {
    NonEmptyListsAppend(a + [[]], b);
    NonEmptyListsAppend(a, [[]]);
    NonEmptyListsAppend(a, b);
    assert NonEmptyLists([[]]) == [];
    assert NonEmptyLists(a + [[]] + b) == NonEmptyLists(a + b);
  }

  /** A single usable coordinate pair is its own mean. */
  lemma MeanCoordsSingle(c: seq<real>)
    requires |c| >= 2
    ensures MeanCoords([c]) == Ok((c[0], c[1]))
  {
    assert NonEmptyLists([c]) == [c];
    assert Firsts([c]) == [c[0]];
    assert Seconds([c]) == [c[1]];
    MeanOfEqual([c[0]], c[0]);
    MeanOfEqual([c[1]], c[1]);
  }

  /** Lists that are all non-empty all pass the `if coord` filter. */
  lemma {:induction false} NonEmptyListsKeepsAll(ls: seq<seq<real>>)
    requires forall i :: 0 <= i < |ls| ==> ls[i] != []
    ensures NonEmptyLists(ls) == ls
  {
    if |ls| > 0 {
      assert forall i :: 0 <= i < |ls[1..]| ==> ls[1..][i] == ls[i + 1];
      NonEmptyListsKeepsAll(ls[1..]);
    }
  }

  /**
   * When every list holds a position, `_mean_coords` is the pair of the mean
   * first component and the mean second component over all of them.
   */
  lemma MeanCoordsAllUsable(ls: seq<seq<real>>)
    requires |ls| > 0 && forall i :: 0 <= i < |ls| ==> |ls[i]| >= 2
    ensures NonEmptyLists(ls) == ls && MeanCoords(ls) == Ok((Mean(Firsts(ls)), Mean(Seconds(ls))))
  {
    NonEmptyListsKeepsAll(ls);
  }

  /** The mean position lies inside the bounding box of the usable positions. */
  lemma MeanCoordsWithin(coordsList: seq<seq<real>>, latLo: real, latHi: real, lonLo: real, lonHi: real)
    requires forall i :: 0 <= i < |coordsList| && |coordsList[i]| >= 2 ==>
               latLo <= coordsList[i][0] <= latHi && lonLo <= coordsList[i][1] <= lonHi
    ensures MeanCoords(coordsList).Ok? ==>
              latLo <= MeanCoords(coordsList).value.0 <= latHi && lonLo <= MeanCoords(coordsList).value.1 <= lonHi
  {
    var entries := NonEmptyLists(coordsList);
    if MeanCoords(coordsList).Ok? {
      assert forall i :: 0 <= i < |entries| ==> |entries[i]| >= 2 by {
        forall i | 0 <= i < |entries| ensures |entries[i]| >= 2 {
          assert entries[i] in coordsList;
        }
      }
      forall i | 0 <= i < |entries|
        ensures latLo <= Firsts(entries)[i] <= latHi && lonLo <= Seconds(entries)[i] <= lonHi
      {
        assert entries[i] in coordsList;
      }
      MeanWithin(Firsts(entries), latLo, latHi);
      MeanWithin(Seconds(entries), lonLo, lonHi);
    }
  }

  /** `_mean_coords` applied to the group of one key. */
  function GroupCoords(rows: seq<CleanRow>, k: string): Result<(real, real), CoordFailure>
  {
    MeanCoords(CoordLists(Group(rows, k)))
  }

  /** Reduction 1, `groupby('cp_ville')[['Région', 'Département']].first()`. */
  function GeoMapping(rows: seq<CleanRow>): seq<(string, (Option<string>, Option<string>))>
  {
    var ks := Keys(rows);
    seq(|ks|, i requires 0 <= i < |ks| =>
      (ks[i], (FirstPresent(Regions(Group(rows, ks[i]))), FirstPresent(Departments(Group(rows, ks[i]))))))
  }

  /** Reduction 2, `groupby('cp_ville')[price_columns].mean()`. */
  function PriceMeans(rows: seq<CleanRow>): seq<(string, Prices)>
  {
    var ks := Keys(rows);
    seq(|ks|, i requires 0 <= i < |ks| => (ks[i], MeanPrices(Group(rows, ks[i]))))
  }

  /**
   * Collect per-key results in key order: the first failure, tagged with its
   * key, aborts the collection.
   */
  function Collect<T>(ks: seq<string>, rs: seq<Result<T, CoordFailure>>): (r: Result<seq<(string, T)>, Error>)
    requires |ks| == |rs|
    ensures r.Ok? <==> forall i :: 0 <= i < |rs| ==> rs[i].Ok?
    ensures r.Ok? ==> |r.value| == |ks|
    ensures r.Ok? ==> forall i :: 0 <= i < |ks| ==> r.value[i] == (ks[i], rs[i].value)
    ensures r.Err? ==> exists i :: 0 <= i < |ks| && (forall j :: 0 <= j < i ==> rs[j].Ok?)
                                   && rs[i].Err? && r.error == CoordinatesFailed(ks[i], rs[i].error)
  {
    if |ks| == 0 then Ok([])
    else
      match rs[0]
      case Err(f) => Err(CoordinatesFailed(ks[0], f))
      case Ok(c) =>
        match Collect(ks[1..], rs[1..])
        case Err(e) =>
          var i :| 0 <= i < |ks[1..]| && (forall j :: 0 <= j < i ==> rs[1..][j].Ok?)
                   && rs[1..][i].Err? && e == CoordinatesFailed(ks[1..][i], rs[1..][i].error);
          assert forall j :: 0 <= j < i + 1 ==> rs[j].Ok? by {
            forall j | 0 < j < i + 1 ensures rs[j].Ok? {
              assert rs[j] == rs[1..][j - 1];
            }
          }
          Err(e)
        case Ok(rest) =>
          assert forall i :: 0 < i < |rs| ==> rs[i] == rs[1..][i - 1];
          Ok([(ks[0], c)] + rest)
  }

  /** The coordinate mean of every key's group, in key order. */
  function GroupCoordsAll(rows: seq<CleanRow>): (rs: seq<Result<(real, real), CoordFailure>>)
    ensures |rs| == |Keys(rows)|
    ensures forall i :: 0 <= i < |rs| ==> rs[i] == GroupCoords(rows, Keys(rows)[i])
  {
    var ks := Keys(rows);
    seq(|ks|, i requires 0 <= i < |ks| => GroupCoords(rows, ks[i]))
  }

  /**
   * Reduction 3, `groupby('cp_ville')['geom'].apply(_mean_coords)`, in key
   * order: the first group whose mean raises aborts it. With no group at all
   * the result has only the key level, and `reset_index(level=1, drop=True)`
   * raises `IndexError`.
   */
  function CoordMeans(rows: seq<CleanRow>): Result<seq<(string, (real, real))>, Error>
  {
    if |Keys(rows)| == 0 then Err(NoKeyedRows) else Collect(Keys(rows), GroupCoordsAll(rows))
  }

  /** Reduction 4, `groupby('cp_ville').size()`: the number of rows per key. */
  function Counts(rows: seq<CleanRow>): seq<(string, nat)>
  {
    var ks := Keys(rows);
    seq(|ks|, i requires 0 <= i < |ks| => (ks[i], |Group(rows, ks[i])|))
  }

  /** A row of the three successive joins. */
  type Merged = (string, ((((Option<string>, Option<string>), Prices), (real, real)), nat))

  function ToCity(m: Merged): CityAggregate
  {
    var (k, (((geo, prices), pos), n)) := m;
    CityAggregate(geo.0, geo.1, k, prices, pos.0, pos.1, n)
  }

  /**
   * `_compute_new_dataframe` as a value: the four reductions, joined on the
   * key; the coordinate reduction may raise.
   */
  function Compute(rows: seq<CleanRow>): Result<seq<CityAggregate>, Error>
  {
    match CoordMeans(rows)
    case Err(e) => Err(e)
    case Ok(coords) =>
      var merged := InnerJoin(InnerJoin(InnerJoin(GeoMapping(rows), PriceMeans(rows)), coords), Counts(rows));
      Ok(seq(|merged|, i requires 0 <= i < |merged| => ToCity(merged[i])))
  }

  /** Reference definition: the output row of one key, straight from its group. */
  function CityOf(rows: seq<CleanRow>, k: string): Result<CityAggregate, Error>
  {
    match GroupCoords(rows, k)
    case Err(f) => Err(CoordinatesFailed(k, f))
    case Ok(c) => Ok(Summary(Group(rows, k), k, c))
  }

  /** The output row of a group whose mean position is `c`. */
  function Summary(g: seq<CleanRow>, k: string, c: (real, real)): CityAggregate
  {
    CityAggregate(FirstPresent(Regions(g)), FirstPresent(Departments(g)), k, MeanPrices(g), c.0, c.1, |g|)
  }

  /** The three joins pair the `i`-th row of each reduction. */
  lemma MergeAligned(rows: seq<CleanRow>, coords: seq<(string, (real, real))>)
    requires CoordMeans(rows) == Ok(coords)
    ensures var merged := InnerJoin(InnerJoin(InnerJoin(GeoMapping(rows), PriceMeans(rows)), coords), Counts(rows));
      |merged| == |Keys(rows)|
      && forall i :: 0 <= i < |merged| ==>
           merged[i] == (Keys(rows)[i], (((GeoMapping(rows)[i].1, PriceMeans(rows)[i].1), coords[i].1), Counts(rows)[i].1))
  {
    GeoMappingKeys(rows);
    PriceMeansKeys(rows);
    CoordMeansKeys(rows, coords);
    CountsKeys(rows);
    JoinFourAligned(GeoMapping(rows), PriceMeans(rows), coords, Counts(rows));
  }

  lemma GeoMappingKeys(rows: seq<CleanRow>)
    ensures KeysOf(GeoMapping(rows)) == Keys(rows)
  {
  }

  lemma PriceMeansKeys(rows: seq<CleanRow>)
    ensures KeysOf(PriceMeans(rows)) == Keys(rows) && UniqueKeys(PriceMeans(rows))
  {
  }

  lemma CoordMeansKeys(rows: seq<CleanRow>, coords: seq<(string, (real, real))>)
    requires CoordMeans(rows) == Ok(coords)
    ensures KeysOf(coords) == Keys(rows) && UniqueKeys(coords)
  {
  }

  lemma CountsKeys(rows: seq<CleanRow>)
    ensures KeysOf(Counts(rows)) == Keys(rows) && UniqueKeys(Counts(rows))
  {
  }

  /** The `i`-th merged row is the reference row of the `i`-th key. */
  lemma MergedRowIsCityOf(rows: seq<CleanRow>, i: nat, c: (real, real))
    requires i < |Keys(rows)| && GroupCoords(rows, Keys(rows)[i]) == Ok(c)
    ensures CityOf(rows, Keys(rows)[i])
         == Ok(ToCity((Keys(rows)[i], (((GeoMapping(rows)[i].1, PriceMeans(rows)[i].1), c), Counts(rows)[i].1))))
  {
  }

  /** The four-way join succeeds exactly when there is a key and every key's reference row does. */
  lemma ComputeSucceedsIff(rows: seq<CleanRow>)
    ensures Compute(rows).Ok? <==> |Keys(rows)| > 0 && forall i :: 0 <= i < |Keys(rows)| ==> CityOf(rows, Keys(rows)[i]).Ok?
  {
    var ks := Keys(rows);
    var rs := GroupCoordsAll(rows);
    ComputeFailsWithCoordinates(rows);
    CoordMeansSucceedsIff(rows, ks, rs);
    forall i | 0 <= i < |ks| ensures CityOf(rows, ks[i]).Ok? <==> rs[i].Ok? {
      CityOfFailsWithCoords(rows, ks[i], rs[i]);
    }
  }

  /** The coordinate reduction succeeds exactly when there is a key and every key's coordinate mean does. */
  lemma CoordMeansSucceedsIff(rows: seq<CleanRow>, ks: seq<string>, rs: seq<Result<(real, real), CoordFailure>>)
    requires ks == Keys(rows) && rs == GroupCoordsAll(rows)
    ensures |rs| == |ks|
    ensures CoordMeans(rows).Ok? <==> |ks| > 0 && forall i :: 0 <= i < |ks| ==> rs[i].Ok?
  {
  }

  /** A key's reference row fails exactly when its coordinate mean does. */
  lemma CityOfFailsWithCoords(rows: seq<CleanRow>, k: string, r: Result<(real, real), CoordFailure>)
    requires r == GroupCoords(rows, k)
    ensures CityOf(rows, k).Ok? <==> r.Ok?
  {
  }

  lemma ComputeFailsWithCoordinates(rows: seq<CleanRow>)
    ensures Compute(rows).Ok? <==> CoordMeans(rows).Ok?
    ensures Compute(rows).Err? ==> Compute(rows).error == CoordMeans(rows).error
  {
  }

  /** On success the four-way join yields, key by key in order, the reference row. */
  lemma ComputeByKey(rows: seq<CleanRow>)
    requires Compute(rows).Ok?
    ensures |Compute(rows).value| == |Keys(rows)|
    ensures forall i :: 0 <= i < |Keys(rows)| ==> CityOf(rows, Keys(rows)[i]) == Ok(Compute(rows).value[i])
  {
    var ks := Keys(rows);
    var coords := CoordMeans(rows).value;
    MergeAligned(rows, coords);
    forall i | 0 <= i < |ks| ensures CityOf(rows, ks[i]) == Ok(Compute(rows).value[i]) {
      MergedRowIsCityOf(rows, i, coords[i].1);
    }
  }

  /**
   * On failure the error is `NoKeyedRows` when there is no key, and
   * otherwise that of the first key whose reference row fails.
   */
  lemma ComputeFailsAtFirstBadKey(rows: seq<CleanRow>)
    requires Compute(rows).Err?
    ensures Compute(rows).error == NoKeyedRows <==> |Keys(rows)| == 0
    ensures |Keys(rows)| > 0 ==>
              exists i :: 0 <= i < |Keys(rows)| && (forall j :: 0 <= j < i ==> CityOf(rows, Keys(rows)[j]).Ok?)
                          && CityOf(rows, Keys(rows)[i]) == Err(Compute(rows).error)
  {
    var ks := Keys(rows);
    var rs := GroupCoordsAll(rows);
    ComputeFailsWithCoordinates(rows);
    if |ks| > 0 {
      var e := CoordMeans(rows).error;
      var i := CoordMeansFailsAtFirstBadKey(rows, ks, rs);
      forall j | 0 <= j < i ensures CityOf(rows, ks[j]).Ok? {
        CityOfFailsWithCoords(rows, ks[j], rs[j]);
      }
      CityOfFailsAt(rows, ks[i], rs[i], e);
    }
  }

  /**
   * The computation fails with `NoKeyedRows` exactly when no cleaned row has
   * a key: every station lacked a postal code or a city.
   */
  lemma ComputeFailsWithoutKeys(rows: seq<CleanRow>)
    ensures Compute(rows) == Err(NoKeyedRows) <==> forall i :: 0 <= i < |rows| ==> rows[i].key.None?
  {
    var ks := Keys(rows);
    ComputeFailsWithCoordinates(rows);
    if |ks| > 0 {
      assert ks[0] in ks;
      if Compute(rows).Err? {
        var i := CoordMeansFailsAtFirstBadKey(rows, ks, GroupCoordsAll(rows));
      }
    }
  }

  /** The coordinate reduction fails at the first key whose coordinate mean fails. */
  lemma CoordMeansFailsAtFirstBadKey(rows: seq<CleanRow>, ks: seq<string>, rs: seq<Result<(real, real), CoordFailure>>)
    returns (i: nat)
    requires ks == Keys(rows) && rs == GroupCoordsAll(rows) && CoordMeans(rows).Err? && |ks| > 0
    ensures i < |ks| == |rs| && (forall j :: 0 <= j < i ==> rs[j].Ok?)
    ensures rs[i].Err? && CoordMeans(rows).error == CoordinatesFailed(ks[i], rs[i].error)
  {
    i :| 0 <= i < |ks| && (forall j :: 0 <= j < i ==> rs[j].Ok?)
         && rs[i].Err? && CoordMeans(rows).error == CoordinatesFailed(ks[i], rs[i].error);
  }

  /** A key whose coordinate mean fails has that failure as its reference row. */
  lemma CityOfFailsAt(rows: seq<CleanRow>, k: string, r: Result<(real, real), CoordFailure>, e: Error)
    requires r == GroupCoords(rows, k) && r.Err? && e == CoordinatesFailed(k, r.error)
    ensures CityOf(rows, k) == Err(e)
  {
  }

  /** Some output row has the key `k`. */
  predicate IsOutputKey(out: seq<CityAggregate>, k: string)
  {
    exists i :: 0 <= i < |out| && out[i].key == k
  }

  /** Some cleaned row has the key `k`. */
  predicate IsRowKey(rows: seq<CleanRow>, k: string)
  {
    exists i :: 0 <= i < |rows| && rows[i].key == Some(k)
  }

  /** The output has one row per key of the cleaned rows, and no key twice. */
  lemma OneRowPerKey(rows: seq<CleanRow>, out: seq<CityAggregate>)
    requires Compute(rows) == Ok(out)
    ensures forall i, j :: 0 <= i < j < |out| ==> out[i].key != out[j].key
    ensures forall k :: IsOutputKey(out, k) <==> IsRowKey(rows, k)
  {
    ComputeKeys(rows, out);
    KeyedLikeKeys(rows, out);
  }

  /** Rows that carry `Keys(rows)` in order have distinct keys, exactly those of the rows. */
  lemma KeyedLikeKeys(rows: seq<CleanRow>, out: seq<CityAggregate>)
    requires |out| == |Keys(rows)| && forall i :: 0 <= i < |out| ==> out[i].key == Keys(rows)[i]
    ensures forall i, j :: 0 <= i < j < |out| ==> out[i].key != out[j].key
    ensures forall k :: IsOutputKey(out, k) <==> IsRowKey(rows, k)
  {
    var ks := Keys(rows);
    forall k ensures IsOutputKey(out, k) <==> IsRowKey(rows, k) {
      if IsRowKey(rows, k) {
        var i :| 0 <= i < |ks| && ks[i] == k;
        assert out[i].key == k;
      }
      if IsOutputKey(out, k) {
        var i :| 0 <= i < |out| && out[i].key == k;
        assert ks[i] in ks;
      }
    }
  }

  /** The `i`-th output row carries the `i`-th key. */
  lemma ComputeKeys(rows: seq<CleanRow>, out: seq<CityAggregate>)
    requires Compute(rows) == Ok(out)
    ensures |out| == |Keys(rows)| && forall i :: 0 <= i < |out| ==> out[i].key == Keys(rows)[i]
  {
    ComputeByKey(rows);
    forall i | 0 <= i < |out| ensures out[i].key == Keys(rows)[i] {
      assert CityOf(rows, Keys(rows)[i]) == Ok(out[i]);
    }
  }

  /**
   * The row of a key that occurs: its count is the (non-zero) size of the
   * group and its position is the group's mean position.
   */
  lemma CityOfCountsGroup(rows: seq<CleanRow>, k: string)
    requires CityOf(rows, k).Ok? && k in Keys(rows)
    ensures CityOf(rows, k).value.key == k
    ensures CityOf(rows, k).value.apparition == |Group(rows, k)| >= 1
    ensures (CityOf(rows, k).value.latitude, CityOf(rows, k).value.longitude) == GroupCoords(rows, k).value
  {
    var i :| 0 <= i < |rows| && rows[i].key == Some(k);
    assert rows[i] in Group(rows, k);
  }

  /** A fuel's mean is missing exactly when no station of the group reports it. */
  lemma SummaryPriceMissingIff(g: seq<CleanRow>, k: string, c: (real, real), f: Fuel)
    ensures PriceOf(Summary(g, k, c).prices, f).None? <==> forall j :: 0 <= j < |g| ==> PriceOf(g[j].prices, f).None?
  {
    var col := PriceColumn(g, f);
    MeanPriceOf(g, f);
    assert forall j :: 0 <= j < |g| ==> col[j] == PriceOf(g[j].prices, f);
  }

  /** When every row has a region, the group's region is its first row's. */
  lemma SummaryRegionIsFirst(g: seq<CleanRow>, k: string, c: (real, real))
    requires |g| > 0 && forall j :: 0 <= j < |g| ==> g[j].region.Some?
    ensures Summary(g, k, c).region == g[0].region
  {
    assert Regions(g)[0] == g[0].region;
  }

  /**
   * The department is the first present one in row order, and missing only
   * when no row of the group has one.
   */
  lemma SummaryDepartmentIsFirstPresent(g: seq<CleanRow>, k: string, c: (real, real))
    ensures Summary(g, k, c).department.None? <==> forall j :: 0 <= j < |g| ==> g[j].department.None?
    ensures Summary(g, k, c).department.Some? ==>
              exists i :: 0 <= i < |g| && g[i].department == Summary(g, k, c).department
                          && forall j :: 0 <= j < i ==> g[j].department.None?
  {
    var ds := Departments(g);
    assert forall j :: 0 <= j < |g| ==> ds[j] == g[j].department;
  }

  /** A key no row has has an empty group. */
  lemma {:induction false} GroupOfAbsentKey(rows: seq<CleanRow>, k: string)
    requires forall i :: 0 <= i < |rows| ==> rows[i].key != Some(k)
    ensures Group(rows, k) == []
    decreases |rows|
  {
    if |rows| > 0 {
      GroupOfAbsentKey(rows[..|rows| - 1], k);
    }
  }

  /** The number of rows that have a key. */
  function KeyedCount(rows: seq<CleanRow>): nat
  {
    if |rows| == 0 then 0
    else KeyedCount(rows[..|rows| - 1]) + (if rows[|rows| - 1].key.Some? then 1 else 0)
  }

  /** The total size of the groups of the keys `ks`. */
  function SumSizes(rows: seq<CleanRow>, ks: seq<string>): nat
  {
    if |ks| == 0 then 0 else |Group(rows, ks[0])| + SumSizes(rows, ks[1..])
  }

  /** How many of `ks` equal the key `key`. */
  function Occurrences(ks: seq<string>, key: Option<string>): nat
  {
    if |ks| == 0 then 0 else (if Some(ks[0]) == key then 1 else 0) + Occurrences(ks[1..], key)
  }

  lemma {:induction false} OccurrencesDistinct(ks: seq<string>, key: Option<string>)
    requires forall i, j :: 0 <= i < j < |ks| ==> ks[i] != ks[j]
    ensures Occurrences(ks, key) == if key.Some? && key.value in ks then 1 else 0
  {
    if |ks| > 0 {
      OccurrencesDistinct(ks[1..], key);
      if key == Some(ks[0]) {
        assert ks[0] !in ks[1..];
      } else if key.Some? && key.value in ks {
        assert key.value in ks[1..];
      }
    }
  }

  lemma {:induction false} SumSizesSnoc(init: seq<CleanRow>, last: CleanRow, ks: seq<string>)
    ensures SumSizes(init + [last], ks) == SumSizes(init, ks) + Occurrences(ks, last.key)
  {
    var rows := init + [last];
    assert rows[..|rows| - 1] == init;
    if |ks| > 0 {
      SumSizesSnoc(init, last, ks[1..]);
    }
  }

  lemma {:induction false} SumSizesAppend(rows: seq<CleanRow>, ks: seq<string>, k: string)
    ensures SumSizes(rows, ks + [k]) == SumSizes(rows, ks) + |Group(rows, k)|
  {
    if |ks| > 0 {
      assert (ks + [k])[1..] == ks[1..] + [k];
      SumSizesAppend(rows, ks[1..], k);
    } else {
      assert SumSizes(rows, [k]) == |Group(rows, k)| + SumSizes(rows, []);
    }
  }

  /**
   * The groups partition the rows that have a key: their sizes add up to
   * the number of such rows, so no station is counted twice or lost.
   */
  lemma {:induction false} GroupsPartitionRows(rows: seq<CleanRow>)
    ensures SumSizes(rows, Keys(rows)) == KeyedCount(rows)
    decreases |rows|
  {
    if |rows| > 0 {
      var init, last := rows[..|rows| - 1], rows[|rows| - 1];
      assert rows == init + [last];
      var ks0 := Keys(init);
      GroupsPartitionRows(init);
      SumSizesSnoc(init, last, ks0);
      OccurrencesDistinct(ks0, last.key);
      if last.key.Some? && last.key.value !in ks0 {
        var k := last.key.value;
        assert Keys(rows) == ks0 + [k];
        SumSizesAppend(rows, ks0, k);
        GroupOfAbsentKey(init, k);
        assert rows[..|rows| - 1] == init;
      }
    }
  }

  function SumApparition(cities: seq<CityAggregate>): nat
  {
    if |cities| == 0 then 0 else cities[0].apparition + SumApparition(cities[1..])
  }

  lemma {:induction false} SumApparitionAligned(cities: seq<CityAggregate>, rows: seq<CleanRow>, ks: seq<string>)
    requires |cities| == |ks|
    requires forall i :: 0 <= i < |ks| ==> cities[i].apparition == |Group(rows, ks[i])|
    ensures SumApparition(cities) == SumSizes(rows, ks)
  {
    if |ks| > 0 {
      SumApparitionAligned(cities[1..], rows, ks[1..]);
    }
  }

  /** The station counts of the output add up to the number of keyed rows. */
  lemma EveryKeyedRowCountedOnce(rows: seq<CleanRow>)
    requires Compute(rows).Ok?
    ensures SumApparition(Compute(rows).value) == KeyedCount(rows)
  {
    ComputeByKey(rows);
    var out := Compute(rows).value;
    forall i | 0 <= i < |out| ensures out[i].apparition == |Group(rows, Keys(rows)[i])| {
      assert CityOf(rows, Keys(rows)[i]) == Ok(out[i]);
    }
    SumApparitionAligned(out, rows, Keys(rows));
    GroupsPartitionRows(rows);
  }
}
