/**
 * The two string operations the geometry decoding relies on: Python's
 * `str.split(sep)` with an explicit separator, and `float` on one piece.
 */
module Text {
  import opened Wrappers

  /** `sep` starts at the beginning of `s`. */
  predicate StartsWith(s: string, sep: string)
  {
    |sep| <= |s| && s[..|sep|] == sep
  }

  /** `sep` occurs somewhere in `s`. */
  predicate Occurs(s: string, sep: string)
  {
    exists i :: 0 <= i <= |s| && StartsWith(s[i..], sep)
  }

  /**
   * `s.split(sep)`: cut `s` at every occurrence of `sep`, scanning from the
   * left and never reusing a character; always at least one piece.
   */
  function Split(s: string, sep: string): (pieces: seq<string>)
    requires |sep| > 0
    ensures |pieces| >= 1
    ensures pieces[0] <= s
    decreases |s|
  {
    if |s| < |sep| then [s]
    else if StartsWith(s, sep) then [""] + Split(s[|sep|..], sep)
    else
      var rest := Split(s[1..], sep);
      [[s[0]] + rest[0]] + rest[1..]
  }

  /** `sep.join(pieces)`, the inverse of `Split`. */
  function Join(pieces: seq<string>, sep: string): string
  {
    if |pieces| == 0 then ""
    else if |pieces| == 1 then pieces[0]
    else pieces[0] + sep + Join(pieces[1..], sep)
  }

  /** Gluing a prefix onto the first piece glues it onto the joined string. */
  lemma JoinExtendFirst(x: string, pieces: seq<string>, sep: string)
    requires |pieces| >= 1
    ensures Join([x + pieces[0]] + pieces[1..], sep) == x + Join(pieces, sep)
  {
    var glued := [x + pieces[0]] + pieces[1..];
    if |pieces| > 1 {
      assert glued[1..] == pieces[1..];
      assert Join(glued, sep) == (x + pieces[0]) + sep + Join(pieces[1..], sep);
    }
  }

  /** Joining the pieces back with the separator gives the original string. */
  lemma {:induction false} JoinSplit(s: string, sep: string)
    requires |sep| > 0
    ensures Join(Split(s, sep), sep) == s
    decreases |s|
  {
    if |s| < |sep| {
    } else if StartsWith(s, sep) {
      var tail := Split(s[|sep|..], sep);
      JoinSplit(s[|sep|..], sep);
      var pieces := [""] + tail;
      assert Split(s, sep) == pieces;
      assert pieces[1..] == tail;
      assert Join(pieces, sep) == "" + sep + Join(tail, sep);
      assert s == sep + s[|sep|..];
    } else {
      var rest := Split(s[1..], sep);
      JoinSplit(s[1..], sep);
      assert Split(s, sep) == [[s[0]] + rest[0]] + rest[1..];
      JoinExtendFirst([s[0]], rest, sep);
      assert [s[0]] + s[1..] == s;
    }
  }

  /** No piece of a split contains the separator. */
  lemma {:induction false} SplitPiecesFree(s: string, sep: string)
    requires |sep| > 0
    ensures forall p :: p in Split(s, sep) ==> !Occurs(p, sep)
    decreases |s|
  {
    if |s| < |sep| {
      forall i | 0 <= i <= |s| ensures !StartsWith(s[i..], sep) { }
    } else if StartsWith(s, sep) {
      SplitPiecesFree(s[|sep|..], sep);
      assert !StartsWith("", sep);
    } else {
      var rest := Split(s[1..], sep);
      SplitPiecesFree(s[1..], sep);
      var head := [s[0]] + rest[0];
      assert rest[0] in rest;
      forall i | 0 <= i <= |head| ensures !StartsWith(head[i..], sep) {
        if i == 0 {
          assert head <= s;
        } else {
          assert head[i..] == rest[0][i - 1..];
        }
      }
      forall p | p in Split(s, sep) ensures !Occurs(p, sep) {
        if p != head { assert p in rest[1..]; }
      }
    }
  }

  /** A separator at a known place: the piece before it is split off whole. */
  lemma {:induction false} SplitAtFirst(a: string, b: string, sep: string)
    requires |sep| > 0
    requires forall i :: 0 <= i < |a| ==> !StartsWith((a + sep + b)[i..], sep)
    ensures Split(a + sep + b, sep) == [a] + Split(b, sep)
    decreases |a|
  {
    var s := a + sep + b;
    if |a| == 0 {
      assert s == sep + b;
      assert StartsWith(s, sep);
      assert s[|sep|..] == b;
    } else {
      assert s[0..] == s;
      assert !StartsWith(s, sep);
      assert s[1..] == a[1..] + sep + b;
      forall i | 0 <= i < |a[1..]| ensures !StartsWith((a[1..] + sep + b)[i..], sep) {
        assert (a[1..] + sep + b)[i..] == s[i + 1..];
      }
      SplitAtFirst(a[1..], b, sep);
      assert [s[0]] + a[1..] == a;
    }
  }

  /** A string in which the separator never starts is a single piece. */
  lemma {:induction false} SplitWhole(s: string, sep: string)
    requires |sep| > 0
    requires forall i :: 0 <= i < |s| ==> !StartsWith(s[i..], sep)
    ensures Split(s, sep) == [s]
    decreases |s|
  {
    if |s| >= |sep| {
      assert !StartsWith(s[0..], sep);
      assert s[0..] == s;
      forall i | 0 <= i < |s[1..]| ensures !StartsWith(s[1..][i..], sep) {
        assert s[1..][i..] == s[i + 1..];
      }
      SplitWhole(s[1..], sep);
      assert [s[0]] + s[1..] == s;
    }
  }

  predicate IsDigit(c: char)
  {
    '0' <= c <= '9'
  }

  predicate AllDigits(s: string)
  {
    forall i :: 0 <= i < |s| ==> IsDigit(s[i])
  }

  /** The number a string of decimal digits denotes. */
  function DigitsValue(s: string): nat
    requires AllDigits(s)
    decreases |s|
  {
    if |s| == 0 then 0 else DigitsValue(s[..|s| - 1]) * 10 + (s[|s| - 1] as int - '0' as int)
  }

  function Pow10(n: nat): (p: nat)
    ensures p >= 1
  {
    if n == 0 then 1 else 10 * Pow10(n - 1)
  }

  /** Position of the first `c` in `s`, or `|s|` when there is none. */
  function IndexOf(s: string, c: char): (i: nat)
    ensures i <= |s|
    ensures i < |s| ==> s[i] == c
    ensures forall j :: 0 <= j < i ==> s[j] != c
  {
    if |s| == 0 then 0 else if s[0] == c then 0 else 1 + IndexOf(s[1..], c)
  }

  /** The value of the literal `whole.frac`. */
  function DecimalValue(whole: string, frac: string): real
    requires AllDigits(whole) && AllDigits(frac)
  {
    DigitsValue(whole) as real + DigitsValue(frac) as real / Pow10(|frac|) as real
  }

  /** An unsigned decimal literal: digits, then optionally a point and digits. */
  function Unsigned(s: string): Option<real>
  {
    var dot := IndexOf(s, '.');
    var whole := s[..dot];
    var frac := if dot < |s| then s[dot + 1..] else "";
    if AllDigits(whole) && AllDigits(frac) && |whole| + |frac| > 0
    then Some(DecimalValue(whole, frac))
    else None
  }

  /**
   * Python's `float` on one geometry piece, for decimal literals with an
   * optional sign; `None` stands for the `ValueError` it raises otherwise.
   */
  function Float(s: string): (r: Option<real>)
    ensures s == "" ==> r == None
    ensures r.Some? ==> exists i :: 0 <= i < |s| && IsDigit(s[i])
  {
    if |s| > 0 && s[0] == '-' then
      match Unsigned(s[1..])
      case Some(v) => Some(-v)
      case None => None
    else if |s| > 0 && s[0] == '+' then Unsigned(s[1..])
    else Unsigned(s)
  }

  /** The first `c` of `pre + [c] + post` is the one after `pre` when `pre` has none. */
  lemma {:induction false} IndexOfFirst(pre: string, c: char, post: string)
    requires forall i :: 0 <= i < |pre| ==> pre[i] != c
    ensures IndexOf(pre + [c] + post, c) == |pre|
    decreases |pre|
  {
    var s := pre + [c] + post;
    if |pre| > 0 {
      assert s[0] == pre[0];
      assert s[1..] == pre[1..] + [c] + post;
      IndexOfFirst(pre[1..], c, post);
    }
  }

  /** A literal `whole.frac` denotes `whole + frac / 10^|frac|`. */
  lemma FloatOfDecimal(whole: string, frac: string)
    requires AllDigits(whole) && AllDigits(frac) && |whole| > 0
    ensures Float(whole + "." + frac) == Some(DecimalValue(whole, frac))
  {
    var s := whole + "." + frac;
    assert s[0] == whole[0] && IsDigit(whole[0]);
    assert Float(s) == Unsigned(s);
    IndexOfFirst(whole, '.', frac);
    var dot := IndexOf(s, '.');
    assert s[..dot] == whole;
    assert s[dot + 1..] == frac;
  }
}
