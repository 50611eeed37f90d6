/**
 Masking of secret values in log lines. Lines and values are byte sequences: the length threshold counts
 bytes, and in UTF-8 a value occurs in a line exactly where its bytes do.
 */
module Masking {
  newtype byte = x: int | 0 <= x < 256

  type Bytes = seq<byte>

  const STAR: byte := 42
  const STARS: Bytes := [STAR, STAR, STAR]

  predicate Occurs(value: Bytes, line: Bytes)
    decreases |line|
  {
    value <= line || (line != [] && Occurs(value, line[1..]))
  }

  /** `str::replace`: a scan from the left, resuming after each match. */
  function Replace(line: Bytes, value: Bytes): Bytes
    requires value != []
    decreases |line|
  {
    if |line| < |value| then line
    else if value <= line then STARS + Replace(line[|value|..], value)
    else [line[0]] + Replace(line[1..], value)
  }

  function MaskWith(line: Bytes, values: seq<Bytes>): Bytes
    requires [] !in values
  {
    if values == [] then line
    else Replace(MaskWith(line, values[..|values| - 1]), values[|values| - 1])
  }

  // ---- Which values the mask itself cannot disturb ----

  /** The value does not begin or end with `*` and does not contain `***`. */
  predicate Robust(value: Bytes) {
    value != [] && value[0] != STAR && value[|value| - 1] != STAR && !Occurs(STARS, value)
  }

  ghost predicate AllRobust(values: seq<Bytes>) {
    forall v :: v in values ==> Robust(v)
  }

  /** A value without any `*` is robust. */
  lemma {:induction false} NoStarIsRobust(value: Bytes)
    requires value != [] && STAR !in value
    ensures Robust(value)
  {
    if Occurs(STARS, value) {
      OccursHasByte(STARS, value);
    }
  }

  lemma {:induction false} OccursHasByte(part: Bytes, line: Bytes)
    requires part != [] && Occurs(part, line)
    ensures part[0] in line
    decreases |line|
  {
    if part <= line {
      assert line[0] == part[0];
    } else {
      OccursHasByte(part, line[1..]);
    }
  }

  lemma {:induction false} OccursInTail(part: Bytes, line: Bytes)
    requires line != [] && Occurs(part, line[1..])
    ensures Occurs(part, line)
  {
  }

  /** The end of a robust value: last byte no `*`, no `***` inside. */
  predicate RobustEnd(y: Bytes) {
    y != [] && y[|y| - 1] != STAR && !Occurs(STARS, y)
  }

  /** What stands at the front after a replacement stood there before, unless the mask shows. */
  lemma {:induction false} FrontSurvives(y: Bytes, line: Bytes, value: Bytes)
    requires value != [] && RobustEnd(y) && y <= Replace(line, value)
    ensures y <= line
    ensures |line| < |value| || !(value <= line)
    decreases |line|
  {
    if |line| >= |value| {
      if value <= line {
        MaskCannotStart(y, Replace(line[|value|..], value));
      } else {
        assert y[0] == line[0];
        if |y| > 1 {
          var z := y[1..];
          assert z <= Replace(line[1..], value);
          assert RobustEnd(z);
          FrontSurvives(z, line[1..], value);
        }
        assert y == [y[0]] + y[1..] && line == [line[0]] + line[1..];
      }
    }
  }

  lemma MaskCannotStart(y: Bytes, rest: Bytes)
    requires RobustEnd(y)
    ensures !(y <= STARS + rest)
  {
  }

  lemma {:induction false} OccursPastStar(x: Bytes, rest: Bytes)
    requires x != [] && x[0] != STAR && Occurs(x, [STAR] + rest)
    ensures Occurs(x, rest)
  {
  }

  lemma {:induction false} OccursPastStars(x: Bytes, rest: Bytes)
    requires x != [] && x[0] != STAR && Occurs(x, STARS + rest)
    ensures Occurs(x, rest)
  {
    StarsSplit(rest);
    OccursPastStar(x, [STAR] + ([STAR] + rest));
    OccursPastStar(x, [STAR] + rest);
    OccursPastStar(x, rest);
  }

  /** Replacing never brings a robust value into a line, and takes its own value out of it. */
  lemma {:induction false} ReplaceBringsNothing(x: Bytes, line: Bytes, value: Bytes)
    requires value != [] && Robust(x) && Occurs(x, Replace(line, value))
    ensures Occurs(x, line) && x != value
    decreases |line|
  {
    var out := Replace(line, value);
    if x <= out {
      FrontSurvives(x, line, value);
    } else if |line| < |value| {
      if x == value {
        OccursFits(x, line);
      }
    } else if value <= line {
      OccursPastStars(x, Replace(line[|value|..], value));
      ReplaceBringsNothing(x, line[|value|..], value);
      OccursLater(x, line, |value|);
    } else {
      assert out[1..] == Replace(line[1..], value);
      ReplaceBringsNothing(x, line[1..], value);
    }
  }

  lemma {:induction false} OccursFits(x: Bytes, line: Bytes)
    requires Occurs(x, line)
    ensures |x| <= |line|
    decreases |line|
  {
    if !(x <= line) {
      OccursFits(x, line[1..]);
    }
  }

  lemma {:induction false} OccursLater(x: Bytes, line: Bytes, i: nat)
    requires i <= |line| && Occurs(x, line[i..])
    ensures Occurs(x, line)
    decreases i
  {
    if i > 0 {
      assert line[i - 1..][1..] == line[i..];
      OccursInTail(x, line[i - 1..]);
      OccursLater(x, line, i - 1);
    } else {
      assert line[0..] == line;
    }
  }

  /** No robust registered value is left in a masked line, whatever the others are. */
  lemma {:induction false} NothingLeft(line: Bytes, values: seq<Bytes>, x: Bytes)
    requires [] !in values && Robust(x)
    ensures Occurs(x, MaskWith(line, values)) ==> Occurs(x, line) && x !in values
  {
    if values != [] && Occurs(x, MaskWith(line, values)) {
      var n := |values| - 1;
      ReplaceBringsNothing(x, MaskWith(line, values[..n]), values[n]);
      NothingLeft(line, values[..n], x);
      assert values == values[..n] + [values[n]];
    }
  }

  lemma {:induction false} NothingToReplace(line: Bytes, value: Bytes)
    requires value != [] && !Occurs(value, line)
    ensures Replace(line, value) == line
    decreases |line|
  {
    if |line| >= |value| {
      NothingToReplace(line[1..], value);
    }
  }

  lemma {:induction false} NothingToMask(line: Bytes, values: seq<Bytes>)
    requires [] !in values && forall v :: v in values ==> !Occurs(v, line)
    ensures MaskWith(line, values) == line
  {
    if values != [] {
      var n := |values| - 1;
      assert forall v :: v in values[..n] ==> v in values;
      NothingToMask(line, values[..n]);
      NothingToReplace(line, values[n]);
    }
  }

  /** Masking twice is masking once. */
  lemma {:induction false} MaskIdempotent(line: Bytes, values: seq<Bytes>)
    requires AllRobust(values)
    ensures MaskWith(MaskWith(line, values), values) == MaskWith(line, values)
  {
    var out := MaskWith(line, values);
    forall v | v in values ensures !Occurs(v, out) {
      NothingLeft(line, values, v);
    }
    NothingToMask(out, values);
  }

  // ---- When a single value can survive its own mask ----

  /** `Robust` is no idle premise: for each value that is not, some line still shows it after masking. */
  lemma {:induction false} RobustExactly(value: Bytes)
    requires |value| >= 4
    ensures (forall line :: !Occurs(value, MaskWith(line, [value]))) <==> Robust(value)
  {
    if Robust(value) {
      forall line ensures !Occurs(value, MaskWith(line, [value])) {
        NothingLeft(line, [value], value);
      }
    } else {
      var line := ShowingLine(value);
      MaskWithOne(line, value);
    }
  }

  lemma {:induction false} MaskWithOne(line: Bytes, value: Bytes)
    requires value != []
    ensures MaskWith(line, [value]) == Replace(line, value)
  {
  }

  lemma ShowingLine(value: Bytes) returns (line: Bytes)
    requires |value| >= 4 && !Robust(value)
    ensures Occurs(value, Replace(line, value))
  {
    if value[0] == STAR {
      line := FirstStarShows(value);
    } else if value[|value| - 1] == STAR {
      line := LastStarShows(value);
    } else {
      line := InnerStarsShow(value);
    }
  }

  ghost predicate MatchesAt(line: Bytes, value: Bytes, i: nat) {
    i <= |line| && value <= line[i..]
  }

  lemma {:induction false} ReplaceHere(line: Bytes, value: Bytes)
    requires value != [] && MatchesAt(line, value, 0)
    ensures |value| <= |line| && Replace(line, value) == STARS + Replace(line[|value|..], value)
  {
    assert line[0..] == line;
  }

  lemma {:induction false} ReplaceLater(line: Bytes, value: Bytes)
    requires value != [] && |value| <= |line| && !MatchesAt(line, value, 0)
    ensures Replace(line, value) == [line[0]] + Replace(line[1..], value)
  {
    assert line[0..] == line;
  }

  /** The scan keeps everything before the first match. */
  lemma {:induction false} FirstMatch(line: Bytes, value: Bytes, n: nat)
    requires value != [] && MatchesAt(line, value, n) && forall i :: 0 <= i < n ==> !MatchesAt(line, value, i)
    ensures n + |value| <= |line|
    ensures Replace(line, value) == line[..n] + (STARS + Replace(line[n + |value|..], value))
    decreases n
  {
    hide MatchesAt, Replace;
    MatchFits(line, value, n);
    if n > 0 {
      MatchShifts(line, value, n);
      FirstMatch(line[1..], value, n - 1);
      DropTwice(line, n + |value|);
      ReplaceLater(line, value);
      KeepFirst(line, n, STARS + Replace(line[n + |value|..], value));
    } else {
      ReplaceHere(line, value);
      assert line[..0] == [];
    }
  }

  lemma KeepFirst(line: Bytes, n: nat, rest: Bytes)
    requires 0 < n <= |line|
    ensures [line[0]] + (line[1..][..n - 1] + rest) == line[..n] + rest
  {
  }

  lemma MatchFits(line: Bytes, value: Bytes, n: nat)
    requires MatchesAt(line, value, n)
    ensures n + |value| <= |line|
  {
  }

  lemma DropTwice(line: Bytes, n: nat)
    requires 1 <= n <= |line|
    ensures line[1..][n - 1..] == line[n..]
  {
  }

  lemma MatchShifts(line: Bytes, value: Bytes, n: nat)
    requires line != []
    ensures forall i :: 0 <= i < n ==> (MatchesAt(line[1..], value, i) <==> MatchesAt(line, value, i + 1))
  {
  }

  lemma FirstStarShows(value: Bytes) returns (line: Bytes)
    requires |value| >= 4 && value[0] == STAR
    ensures Occurs(value, Replace(line, value))
  {
    line := value + value[1..];
    assert line[|value|..] == value[1..];
    var out := STARS + value[1..];
    assert Replace(line, value) == out;
    assert out[1..][1..] == value;
    assert Occurs(value, out[1..][1..]);
  }

  /** All but the last byte, then the value: the mask supplies the last `*`. */
  lemma LastStarShows(value: Bytes) returns (line: Bytes)
    requires |value| >= 4 && value[0] != STAR && value[|value| - 1] == STAR
    ensures Occurs(value, Replace(line, value))
  {
    var n := |value| - 1;
    line := value[..n] + value;
    assert line[n..] == value;
    forall i | 0 <= i < n ensures !MatchesAt(line, value, i) {
      // A match at `i` would make the first byte equal to the last.
      assert line[i..][0] == value[i] && line[i..][n] == value[i];
    }
    FirstMatch(line, value, n);
    assert line[n + |value|..] == [];
    assert value == value[..n] + [STAR];
    var out := Replace(line, value);
    assert value <= out;
  }

  /** Position of the first `***`. */
  lemma {:induction false} FirstStars(value: Bytes) returns (k: nat)
    requires Occurs(STARS, value)
    ensures MatchesAt(value, STARS, k) && forall i :: 0 <= i < k ==> !MatchesAt(value, STARS, i)
  {
    if STARS <= value {
      k := 0;
      assert value[0..] == value;
    } else {
      var j := FirstStars(value[1..]);
      k := j + 1;
      assert value[1..][j..] == value[k..];
      forall i | 0 <= i < k ensures !MatchesAt(value, STARS, i) {
        if i == 0 {
          assert value[0..] == value;
        } else {
          assert value[1..][i - 1..] == value[i..];
          assert !MatchesAt(value[1..], STARS, i - 1);
        }
      }
    }
  }

  /** What comes before the stars, the value, what comes after them: the mask supplies the stars. */
  lemma InnerStarsShow(value: Bytes) returns (line: Bytes)
    requires |value| >= 4 && value[0] != STAR && value[|value| - 1] != STAR && Occurs(STARS, value)
    ensures Occurs(value, Replace(line, value))
  {
    var k := FirstStars(value);
    var p, q := value[..k], value[k + 3..];
    line := p + value + q;
    forall i | 0 <= i < k ensures !MatchesAt(line, value, i) {
      EarlierStars(value, k, i);
    }
    ReplacedOnce(p, value, q);
    assert value == p + (STARS + q);
    assert MatchesAt(Replace(line, value), value, 0);
  }

  lemma {:induction false} ReplacedOnce(p: Bytes, value: Bytes, q: Bytes)
    requires value != [] && |q| < |value|
    requires forall i :: 0 <= i < |p| ==> !MatchesAt(p + value + q, value, i)
    ensures Replace(p + value + q, value) == p + (STARS + q)
  {
    var line := p + value + q;
    assert line[|p|..] == value + q;
    FirstMatch(line, value, |p|);
    assert line[|p| + |value|..] == q && line[..|p|] == p;
    ReplaceNone(q, value);
  }

  /** A match before `k` would have its stars where the appended value has bytes `i`, `i+1`, `i+2`. */
  lemma EarlierStars(value: Bytes, k: nat, i: nat)
    requires MatchesAt(value, STARS, k) && i < k
    ensures MatchesAt(value[..k] + value + value[k + 3..], value, i) ==> MatchesAt(value, STARS, i)
  {
  }

  lemma {:induction false} ReplaceNone(line: Bytes, value: Bytes)
    requires value != [] && |line| < |value|
    ensures Replace(line, value) == line
  {
  }

  // ---- Nothing but registered values is hidden ----

  /** A line taken apart: bytes that are kept and occurrences that are hidden. */
  datatype Piece = Kept(b: byte) | Hidden(value: Bytes)

  /** The line before masking. */
  function Original(ps: seq<Piece>): Bytes {
    if ps == [] then []
    else (match ps[0] case Kept(b) => [b] case Hidden(v) => v) + Original(ps[1..])
  }

  /** The line as it leaves the agent. */
  function Shown(ps: seq<Piece>): Bytes {
    if ps == [] then []
    else (match ps[0] case Kept(b) => [b] case Hidden(_) => STARS) + Shown(ps[1..])
  }

  predicate Spells(ps: seq<Piece>, value: Bytes) {
    |value| <= |ps| && forall i :: 0 <= i < |value| ==> ps[i] == Kept(value[i])
  }

  /** The pieces once `value` is hidden, too. */
  function Hide(ps: seq<Piece>, value: Bytes): seq<Piece>
    requires value != []
    decreases |ps|
  {
    if ps == [] then []
    else if Spells(ps, value) then [Hidden(value)] + Hide(ps[|value|..], value)
    else [ps[0]] + Hide(ps[1..], value)
  }

  /** A robust value at the front of the shown line is spelled by kept bytes alone. */
  lemma {:induction false} FrontIsKept(ps: seq<Piece>, y: Bytes)
    requires RobustEnd(y) && y <= Shown(ps)
    ensures Spells(ps, y)
    decreases |ps|
  {
    if ps[0].Hidden? {
      MaskCannotStart(y, Shown(ps[1..]));
    } else {
      assert y[0] == ps[0].b;
      if |y| > 1 {
        assert Shown(ps) == [ps[0].b] + Shown(ps[1..]);
        FrontIsKept(ps[1..], y[1..]);
      }
    }
  }

  lemma {:induction false} SpelledFront(ps: seq<Piece>, y: Bytes)
    requires Spells(ps, y)
    ensures Shown(ps) == y + Shown(ps[|y|..]) && Original(ps) == y + Original(ps[|y|..])
    decreases |y|
  {
    if y == [] {
      assert ps[0..] == ps;
    } else {
      SpellsOn(ps, y);
      hide Spells;
      SpelledFront(ps[1..], y[1..]);
      FrontFirst(y, Original(ps[|y|..]));
      FrontFirst(y, Shown(ps[|y|..]));
    }
  }

  lemma {:induction false} SpellsOn(ps: seq<Piece>, y: Bytes)
    requires y != [] && Spells(ps, y)
    ensures ps[0] == Kept(y[0]) && Spells(ps[1..], y[1..]) && ps[1..][|y| - 1..] == ps[|y|..]
  {
  }

  lemma FrontFirst(y: Bytes, rest: Bytes)
    requires y != []
    ensures [y[0]] + (y[1..] + rest) == y + rest
  {
  }

  lemma {:induction false} ReplacePastStar(rest: Bytes, value: Bytes)
    requires value != [] && value[0] != STAR
    ensures Replace([STAR] + rest, value) == [STAR] + Replace(rest, value)
  {
  }

  lemma {:induction false} ReplacePastStars(rest: Bytes, value: Bytes)
    requires value != [] && value[0] != STAR
    ensures Replace(STARS + rest, value) == STARS + Replace(rest, value)
  {
    ReplacePastStar(rest, value);
    ReplacePastStar([STAR] + rest, value);
    ReplacePastStar([STAR] + ([STAR] + rest), value);
    StarsSplit(rest);
    StarsSplit(Replace(rest, value));
  }

  lemma StarsSplit(rest: Bytes)
    ensures STARS + rest == [STAR] + ([STAR] + ([STAR] + rest))
  {
  }

  lemma {:induction false} HideIsReplace(ps: seq<Piece>, value: Bytes)
    requires Robust(value)
    ensures Shown(Hide(ps, value)) == Replace(Shown(ps), value)
    ensures Original(Hide(ps, value)) == Original(ps)
    decreases |ps|
  {
    if ps == [] {
    } else if Spells(ps, value) {
      SpelledFront(ps, value);
      HideIsReplace(ps[|value|..], value);
      HideHere(ps, value);
    } else {
      HideIsReplace(ps[1..], value);
      HideLater(ps, value);
    }
  }

  lemma {:induction false} HideHere(ps: seq<Piece>, value: Bytes)
    requires Robust(value) && Spells(ps, value)
    requires Shown(ps) == value + Shown(ps[|value|..])
    ensures Replace(Shown(ps), value) == STARS + Replace(Shown(ps[|value|..]), value)
    ensures ps != [] && Hide(ps, value)[0] == Hidden(value) && Hide(ps, value)[1..] == Hide(ps[|value|..], value)
  {
  }

  lemma {:induction false} HideLater(ps: seq<Piece>, value: Bytes)
    requires Robust(value) && ps != [] && !Spells(ps, value)
    ensures Replace(Shown(ps), value) ==
      (match ps[0] case Kept(b) => [b] case Hidden(_) => STARS) + Replace(Shown(ps[1..]), value)
    ensures Hide(ps, value)[0] == ps[0] && Hide(ps, value)[1..] == Hide(ps[1..], value)
  {
    var rest := Shown(ps[1..]);
    if ps[0].Hidden? {
      ReplacePastStars(rest, value);
    } else {
      var line := [ps[0].b] + rest;
      assert line[1..] == rest;
      if value <= Shown(ps) {
        FrontIsKept(ps, value);
        assert false;
      }
      if |line| < |value| {
        ReplaceNone(rest, value);
      }
    }
  }

  function Keep(line: Bytes): seq<Piece> {
    seq(|line|, i requires 0 <= i < |line| => Kept(line[i]))
  }

  lemma {:induction false} KeepShowsAll(line: Bytes)
    ensures Shown(Keep(line)) == line == Original(Keep(line))
  {
    if line != [] {
      KeepShowsAll(line[1..]);
      assert Keep(line)[1..] == Keep(line[1..]);
    }
  }

  /** The line taken apart by hiding one value after the other. */
  function Pieces(line: Bytes, values: seq<Bytes>): seq<Piece>
    requires [] !in values
  {
    if values == [] then Keep(line) else Hide(Pieces(line, values[..|values| - 1]), values[|values| - 1])
  }

  predicate HidesOnly(ps: seq<Piece>, values: seq<Bytes>) {
    forall i :: 0 <= i < |ps| && ps[i].Hidden? ==> ps[i].value in values
  }

  lemma {:induction false} HideHidesOnly(ps: seq<Piece>, value: Bytes, values: seq<Bytes>)
    requires value != [] && value in values && HidesOnly(ps, values)
    ensures HidesOnly(Hide(ps, value), values)
    decreases |ps|
  {
    if ps == [] {
    } else if Spells(ps, value) {
      assert forall i :: 0 <= i < |ps[|value|..]| ==> ps[|value|..][i] == ps[i + |value|];
      HideHidesOnly(ps[|value|..], value, values);
    } else {
      HideHidesOnly(ps[1..], value, values);
    }
  }

  /**
   Exactness. The masked line is the line with some disjoint occurrences of registered values, found in the
   line as it was, each replaced by `***`, and every other byte in its place.
   */
  lemma {:induction false} MaskExact(line: Bytes, values: seq<Bytes>)
    requires AllRobust(values)
    ensures [] !in values
    ensures var ps := Pieces(line, values);
      Original(ps) == line && Shown(ps) == MaskWith(line, values) && HidesOnly(ps, values)
  {
    if values == [] {
      KeepShowsAll(line);
    } else {
      var n := |values| - 1;
      assert values[n] in values && values[n] != [];
      MaskExact(line, values[..n]);
      var before := Pieces(line, values[..n]);
      HideIsReplace(before, values[n]);
      HideHidesOnly(before, values[n], values);
    }
  }

  /** A value that only overlaps a longer one leaves its tail: `abcde` and `cdefg` in `abcdefg`. */
  lemma {:induction false} OverlapLeavesTail(a: Bytes, b: Bytes, c: Bytes)
    requires |a| >= 1 && |b| >= 1 && |c| >= 1 && |b + c| <= |a + b| && !Occurs(b + c, STARS + c)
    ensures [] !in [a + b, b + c] && MaskWith(a + b + c, [a + b, b + c]) == STARS + c
  {
    var long, short := a + b, b + c;
    var line := a + b + c;
    assert [long, short][..1] == [long];
    MaskWithOne(line, long);
    assert line[|long|..] == c;
    ReplaceNone(c, long);
    assert Replace(line, long) == STARS + c;
    NothingToReplace(STARS + c, short);
  }

  // ---- The masker ----

  /** Stable insertion into a list sorted longest first: behind all that are at least as long. */
  function InsertByLength(values: seq<Bytes>, v: Bytes): (r: seq<Bytes>)
    ensures forall x :: x in r ==> x in values || x == v
  {
    if values == [] || |values[|values| - 1]| >= |v| then values + [v]
    else InsertByLength(values[..|values| - 1], v) + [values[|values| - 1]]
  }

  /** `sort_by_key(|v| Reverse(v.len()))`, which is stable. */
  function SortByLength(values: seq<Bytes>): seq<Bytes> {
    if values == [] then []
    else InsertByLength(SortByLength(values[..|values| - 1]), values[|values| - 1])
  }

  ghost predicate LongestFirst(values: seq<Bytes>) {
    forall i, j :: 0 <= i < j < |values| ==> |values[i]| >= |values[j]|
  }

  ghost predicate NoRepeats(values: seq<Bytes>) {
    forall i, j :: 0 <= i < j < |values| ==> values[i] != values[j]
  }

  lemma {:induction false} SortedStays(values: seq<Bytes>)
    requires LongestFirst(values)
    ensures SortByLength(values) == values
  {
    if values != [] {
      var n := |values| - 1;
      var rest := values[..n];
      SortedStays(rest);
      assert rest + [values[n]] == values;
      assert n > 0 ==> rest[n - 1] == values[n - 1];
    }
  }

  lemma {:induction false} InsertKeepsOrder(values: seq<Bytes>, v: Bytes)
    requires LongestFirst(values) && NoRepeats(values) && v !in values
    ensures LongestFirst(InsertByLength(values, v)) && NoRepeats(InsertByLength(values, v))
    ensures forall x :: x in InsertByLength(values, v) <==> x in values || x == v
  {
    var n := |values| - 1;
    if values == [] || |values[n]| >= |v| {
      assert forall i :: 0 <= i < n ==> |values[i]| >= |values[n]|;
      AppendKeepsOrder(values, v);
    } else {
      var rest := values[..n];
      assert forall i :: 0 <= i < n ==> rest[i] == values[i];
      InsertKeepsOrder(rest, v);
      assert values == rest + [values[n]];
      AppendKeepsOrder(InsertByLength(rest, v), values[n]);
    }
  }

  lemma AppendKeepsOrder(values: seq<Bytes>, v: Bytes)
    requires LongestFirst(values) && NoRepeats(values) && v !in values
    requires forall x :: x in values ==> |x| >= |v|
    ensures LongestFirst(values + [v]) && NoRepeats(values + [v])
    ensures forall x :: x in values + [v] <==> x in values || x == v
  {
  }

  /** The registered values once `value` is added. */
  function Added(values: seq<Bytes>, value: Bytes): (r: seq<Bytes>)
    ensures [] !in values ==> [] !in r
  {
    if |value| < 4 || value in values then values else InsertByLength(values, value)
  }

  /** Unique, longest first, none below four bytes. */
  ghost predicate Registered(values: seq<Bytes>) {
    LongestFirst(values) && NoRepeats(values) && forall v :: v in values ==> |v| >= 4
  }

  lemma AddedIsRegistered(values: seq<Bytes>, value: Bytes)
    requires Registered(values)
    ensures Registered(Added(values, value))
    ensures forall v :: v in Added(values, value) <==> v in values || (v == value && |v| >= 4)
  {
    if |value| >= 4 && value !in values {
      InsertKeepsOrder(values, value);
    }
  }

  /** The sort is stable: a new value goes behind all that are at least as long, and before all that are shorter. */
  lemma {:induction false} AddedInPlace(values: seq<Bytes>, value: Bytes) returns (i: nat)
    requires LongestFirst(values) && |value| >= 4 && value !in values
    ensures i <= |values| && Added(values, value) == values[..i] + [value] + values[i..]
    ensures forall k :: 0 <= k < |values| ==> (|values[k]| >= |value| <==> k < i)
  {
    i := InsertedInPlace(values, value);
  }

  lemma {:induction false} InsertedInPlace(values: seq<Bytes>, value: Bytes) returns (i: nat)
    requires LongestFirst(values)
    ensures i <= |values| && InsertByLength(values, value) == values[..i] + [value] + values[i..]
    ensures forall k :: 0 <= k < |values| ==> (|values[k]| >= |value| <==> k < i)
  {
    var n := |values| - 1;
    if values == [] || |values[n]| >= |value| {
      i := |values|;
      assert values[..i] + [value] + values[i..] == values + [value];
    } else {
      i := InsertedInPlace(values[..n], value);
      assert values[..n][..i] == values[..i] && values[i..] == values[..n][i..] + [values[n]];
      assert forall k :: 0 <= k < n ==> values[..n][k] == values[k];
    }
  }

  class Masker {
    var values: seq<Bytes>

    constructor ()
      ensures values == [] && Valid()
    {
      values := [];
    }

    ghost predicate Valid()
      reads this
    {
      Registered(values)
    }

    method Add(value: Bytes)
      requires Valid()
      modifies this
      ensures Valid() && values == Added(old(values), value)
    {
      AddedIsRegistered(values, value);
      if |value| < 4 {
        return;
      }
      SortedStays(values);
      if value !in values {
        assert (values + [value])[..|values|] == values;
        values := values + [value];
      }
      values := SortByLength(values);
    }

    method Mask(line: Bytes) returns (masked: Bytes)
      requires Valid()
      ensures [] !in values && masked == MaskWith(line, values)
    {
      masked := line;
      for i := 0 to |values|
        invariant masked == MaskWith(line, values[..i])
      {
        assert values[..i + 1][..i] == values[..i];
        if Occurs(values[i], masked) {
          masked := Replace(masked, values[i]);
        } else {
          NothingToReplace(masked, values[i]);
        }
      }
      assert values[..|values|] == values;
    }
  }
}
