/**
 * The cleaning stage of `DataFrameHolder._data_cleaning`: select the useful
 * columns, build the `cp_ville` key, drop rows without a region, decode the
 * geometry text into a list of floats.
 */
module Cleaning {
  import opened Wrappers
  import opened Frames
  import opened Text

  /** The names in `want` that `have` lacks, in the order of `want`. */
  function Missing(want: seq<string>, have: seq<string>): (m: seq<string>)
    ensures forall c :: c in m <==> c in want && c !in have
  {
    if |want| == 0 then []
    else (if want[0] in have then [] else [want[0]]) + Missing(want[1..], have)
  }

  /**
   * Selecting the useful columns: every one of them must be in the header
   * (pandas raises `KeyError` naming those that are not); the result has
   * exactly the useful columns.
   */
  function Project(t: Table): (r: Result<Table, Error>)
    ensures r.Ok? <==> forall c :: c in UsefulColumns() ==> c in t.columns
    ensures r.Ok? ==> r.value.columns == UsefulColumns() && r.value.rows == t.rows
    ensures r.Err? ==> r.error.MissingColumns? && |r.error.names| > 0
    ensures r.Err? ==> forall c :: c in r.error.names <==> c in UsefulColumns() && c !in t.columns
  {
    var missing := Missing(UsefulColumns(), t.columns);
    assert |missing| > 0 ==> missing[0] in missing;
    if |missing| > 0 then Err(MissingColumns(missing)) else Ok(Table(UsefulColumns(), t.rows))
  }

  /** The grouping key: postal code, one space, city name. */
  function CityKey(postalCode: string, city: string): string
  {
    postalCode + " " + city
  }

  /** The postal code part of a key: everything before its first space. */
  function PostalCodeOfKey(key: string): string
  {
    key[..IndexOf(key, ' ')]
  }

  /** The city part of a key: everything after its first space. */
  function CityOfKey(key: string): string
  {
    var i := IndexOf(key, ' ');
    if i < |key| then key[i + 1..] else ""
  }

  /**
   * A postal code without a space (French codes are five digits) and the
   * city name can be read back from the key, so the key identifies both.
   */
  lemma CityKeyRoundTrip(postalCode: string, city: string)
    requires forall i :: 0 <= i < |postalCode| ==> postalCode[i] != ' '
    ensures PostalCodeOfKey(CityKey(postalCode, city)) == postalCode
    ensures CityOfKey(CityKey(postalCode, city)) == city
  {
    var k := CityKey(postalCode, city);
    assert k == postalCode + [' '] + city;
    IndexOfFirst(postalCode, ' ', city);
    assert k[..|postalCode|] == postalCode;
    assert k[|postalCode| + 1..] == city;
  }

  /** Two stations of same-named towns with different postal codes never share a key. */
  lemma CityKeySeparatesPostalCodes(postalCode1: string, postalCode2: string, city: string)
    requires postalCode1 != postalCode2
    ensures CityKey(postalCode1, city) != CityKey(postalCode2, city)
  {
    if |postalCode1| == |postalCode2| {
      var i :| 0 <= i < |postalCode1| && postalCode1[i] != postalCode2[i];
      assert CityKey(postalCode1, city)[i] == postalCode1[i];
      assert CityKey(postalCode2, city)[i] == postalCode2[i];
    } else {
      assert |CityKey(postalCode1, city)| != |CityKey(postalCode2, city)|;
    }
  }

  /** A city name alone is never a key: the postal code and a space precede it. */
  lemma CityKeyIsNotCity(postalCode: string, city: string)
    ensures CityKey(postalCode, city) != city
    ensures CityKey(postalCode, city)[..|postalCode| + 1] == postalCode + " "
    ensures CityKey(postalCode, city)[|postalCode| + 1..] == city
  {
    var k := CityKey(postalCode, city);
    assert |k| == |city| + |postalCode| + 1;
    assert k[..|postalCode| + 1] == postalCode + " ";
  }

  /**
   * The key of one station row: pandas propagates a missing postal code or
   * city into a missing key.
   */
  function KeyOf(r: StationRecord): (k: Option<string>)
    ensures k.Some? <==> r.postalCode.Some? && r.city.Some?
  {
    match (r.postalCode, r.city)
    case (Some(postalCode), Some(city)) => Some(CityKey(postalCode, city))
    case _ => None
  }

  /** A row once `cp_ville` is added and `Ville`, `Code postal` are dropped. */
  function KeyRow(r: StationRecord): KeyedRow
  {
    KeyedRow(r.region, r.department, r.geom, r.prices, KeyOf(r))
  }

  /** Build the key on every row (the key column, then the two drops). */
  function AddKeys(rows: seq<StationRecord>): (keyed: seq<KeyedRow>)
    ensures |keyed| == |rows|
    ensures forall i :: 0 <= i < |rows| ==>
              keyed[i].region == rows[i].region && keyed[i].department == rows[i].department
              && keyed[i].geom == rows[i].geom && keyed[i].prices == rows[i].prices
    ensures forall i :: 0 <= i < |rows| ==>
              keyed[i].key == if rows[i].postalCode.Some? && rows[i].city.Some?
                              then Some(rows[i].postalCode.value + " " + rows[i].city.value) else None
    ensures forall i :: 0 <= i < |rows| ==> keyed[i] == KeyRow(rows[i])
  {
    seq(|rows|, i requires 0 <= i < |rows| => KeyRow(rows[i]))
  }

  /**
   * `dropna(subset=['Région'])`: keep, in order, exactly the rows whose region
   * is present.
   */
  function DropMissingRegion(rows: seq<KeyedRow>): (kept: seq<KeyedRow>)
    ensures |kept| <= |rows|
    ensures forall i :: 0 <= i < |kept| ==> kept[i].region.Some?
    ensures forall r :: r in kept <==> r in rows && r.region.Some?
  {
    if |rows| == 0 then []
    else (if rows[0].region.Some? then [rows[0]] else []) + DropMissingRegion(rows[1..])
  }

  /** The pieces that are not empty, in order (`if coord`). */
  function NonEmpty(pieces: seq<string>): (kept: seq<string>)
    ensures forall i :: 0 <= i < |kept| ==> kept[i] != ""
    ensures forall p :: p in kept <==> p in pieces && p != ""
  {
    if |pieces| == 0 then []
    else (if pieces[0] != "" then [pieces[0]] else []) + NonEmpty(pieces[1..])
  }

  /** The filter keeps order and repetitions: it distributes over concatenation. */
  lemma {:induction false} NonEmptyAppend(a: seq<string>, b: seq<string>)
    ensures NonEmpty(a + b) == NonEmpty(a) + NonEmpty(b)
  {
    if |a| > 0 {
      assert (a + b)[1..] == a[1..] + b;
      NonEmptyAppend(a[1..], b);
    } else {
      assert a + b == b;
    }
  }

  /**
   * `pieces[i]` is the first non-empty piece `float` rejects, and `e` the
   * error it raises.
   */
  predicate FirstBadPiece(pieces: seq<string>, i: int, e: Error)
  {
    0 <= i < |pieces| && pieces[i] != "" && Float(pieces[i]).None? && e == NotAFloat(pieces[i])
    && forall j :: 0 <= j < i && pieces[j] != "" ==> Float(pieces[j]).Some?
  }

  /** A piece `float` accepts, or an empty one, in front moves the first bad piece by one. */
  lemma FirstBadPieceShift(pieces: seq<string>, i: int, e: Error)
    requires |pieces| > 0 && (pieces[0] == "" || Float(pieces[0]).Some?)
    requires FirstBadPiece(pieces[1..], i, e)
    ensures FirstBadPiece(pieces, i + 1, e)
  {
    assert pieces[i + 1] == pieces[1..][i];
    forall j | 0 < j < i + 1 && pieces[j] != "" ensures Float(pieces[j]).Some? {
      assert pieces[j] == pieces[1..][j - 1];
    }
  }

  /** `float` accepts every non-empty piece. */
  predicate AllParse(pieces: seq<string>)
  {
    forall i :: 0 <= i < |pieces| && pieces[i] != "" ==> Float(pieces[i]).Some?
  }

  /** `vs` holds, in order, the floats of the non-empty pieces. */
  predicate Parsed(pieces: seq<string>, vs: seq<real>)
  {
    var kept := NonEmpty(pieces);
    |vs| == |kept| && forall i :: 0 <= i < |vs| ==> Float(kept[i]) == Some(vs[i])
  }

  lemma AllParseCons(pieces: seq<string>)
    requires |pieces| > 0
    ensures AllParse(pieces) <==> (pieces[0] == "" || Float(pieces[0]).Some?) && AllParse(pieces[1..])
  {
    assert forall i :: 0 < i < |pieces| ==> pieces[i] == pieces[1..][i - 1];
  }

  lemma ParsedCons(pieces: seq<string>, v: real, vs: seq<real>)
    requires |pieces| > 0 && pieces[0] != "" && Float(pieces[0]) == Some(v) && Parsed(pieces[1..], vs)
    ensures Parsed(pieces, [v] + vs)
  {
    assert NonEmpty(pieces) == [pieces[0]] + NonEmpty(pieces[1..]);
  }

  lemma ParsedSkip(pieces: seq<string>, vs: seq<real>)
    requires |pieces| > 0 && pieces[0] == "" && Parsed(pieces[1..], vs)
    ensures Parsed(pieces, vs)
  {
    assert NonEmpty(pieces) == NonEmpty(pieces[1..]);
  }

  /**
   * `[float(coord) for coord in pieces if coord]`: the float of every
   * non-empty piece, in order; the first piece `float` rejects aborts it.
   */
  function ParsePieces(pieces: seq<string>): (r: Result<seq<real>, Error>)
    ensures r.Ok? <==> AllParse(pieces)
    ensures r.Ok? ==> Parsed(pieces, r.value)
    ensures r.Err? ==> exists i :: FirstBadPiece(pieces, i, r.error)
  {
    if |pieces| == 0 then Ok([])
    else
      AllParseCons(pieces);
      var r := ParsePieces(pieces[1..]);
      if pieces[0] == "" then
        match r
        case Err(e) =>
          var i :| FirstBadPiece(pieces[1..], i, e);
          FirstBadPieceShift(pieces, i, e);
          r
        case Ok(vs) =>
          ParsedSkip(pieces, vs);
          r
      else
        match Float(pieces[0])
        case None =>
          assert FirstBadPiece(pieces, 0, NotAFloat(pieces[0]));
          Err(NotAFloat(pieces[0]))
        case Some(v) =>
          match r
          case Err(e) =>
            var i :| FirstBadPiece(pieces[1..], i, e);
            FirstBadPieceShift(pieces, i, e);
            Err(e)
          case Ok(vs) =>
            ParsedCons(pieces, v, vs);
            Ok([v] + vs)
  }

  /** The separator of the geometry text. */
  const GeomSeparator: string := ", "

  /**
   * `x.split(', ')` then the comprehension above. A missing `geom` (NaN) has
   * no `split`; the empty text gives the empty list.
   */
  function DecodeGeometry(geom: Option<string>): (r: Result<seq<real>, Error>)
    ensures geom.None? ==> r == Err(GeometryNotText)
    ensures geom == Some("") ==> r == Ok([])
    ensures geom.Some? ==> var pieces := NonEmpty(Split(geom.value, GeomSeparator));
      (r.Ok? <==> forall p :: p in pieces ==> Float(p).Some?)
      && (r.Ok? ==> |r.value| == |pieces|
                    && forall i :: 0 <= i < |pieces| ==> Float(pieces[i]) == Some(r.value[i]))
      && (r.Err? ==> r.error.NotAFloat? && r.error.piece in pieces && Float(r.error.piece).None?)
  {
    match geom
    case None => Err(GeometryNotText)
    case Some(text) =>
      var all := Split(text, GeomSeparator);
      var r := ParsePieces(all);
      assert text == "" ==> all == [""];
      var pieces := NonEmpty(all);
      assert r.Ok? ==> forall p :: p in pieces ==> Float(p).Some? by {
        if r.Ok? {
          forall p | p in pieces ensures Float(p).Some? {
            var i :| 0 <= i < |all| && all[i] == p;
          }
        }
      }
      assert r.Err? ==> r.error.NotAFloat? && r.error.piece in pieces && Float(r.error.piece).None? by {
        if r.Err? {
          var i :| FirstBadPiece(all, i, r.error);
          assert all[i] in pieces;
        }
      }
      r
  }

  /** A keyed row with its geometry replaced by the decoded list. */
  function WithCoords(r: KeyedRow, coords: seq<real>): CleanRow
  {
    CleanRow(r.region, r.department, coords, r.prices, r.key)
  }

  /**
   * Decoding the geometry of every row, in row order (`Series.apply`): the
   * first row whose decoding raises aborts the whole column.
   */
  function DecodeRows(rows: seq<KeyedRow>): (r: Result<seq<CleanRow>, Error>)
    ensures r.Ok? <==> forall i :: 0 <= i < |rows| ==> DecodeGeometry(rows[i].geom).Ok?
    ensures r.Ok? ==> |r.value| == |rows|
    ensures r.Ok? ==> forall i :: 0 <= i < |rows| ==>
                        r.value[i] == WithCoords(rows[i], DecodeGeometry(rows[i].geom).value)
    ensures r.Err? ==> exists i :: 0 <= i < |rows| && DecodeGeometry(rows[i].geom) == Err(r.error)
  {
    if |rows| == 0 then Ok([])
    else
      match DecodeGeometry(rows[0].geom)
      case Err(e) => Err(e)
      case Ok(coords) =>
        match DecodeRows(rows[1..])
        case Err(e) =>
          var i :| 0 <= i < |rows[1..]| && DecodeGeometry(rows[1..][i].geom) == Err(e);
          assert rows[i + 1] == rows[1..][i];
          Err(e)
        case Ok(rest) =>
          assert forall i :: 0 < i < |rows| ==> rows[i] == rows[1..][i - 1];
          Ok([WithCoords(rows[0], coords)] + rest)
  }

  /** The whole cleaning stage on a loaded table, as a value. */
  function CleanTable(t: Table): Result<seq<CleanRow>, Error>
  {
    match Project(t)
    case Err(e) => Err(e)
    case Ok(projected) => DecodeRows(DropMissingRegion(AddKeys(projected.rows)))
  }
}
