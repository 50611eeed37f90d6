/**
 Tails: can masking hide a part of a secret and leave the rest? Replacing longest first prevents it as long as no
 two values overlap. Exactly when it does for one and for two values is proved here.
 */
module MaskTails {
  import opened Masking

  /** For every byte of the original line, whether it is hidden. */
  function Covered(ps: seq<Piece>): (r: seq<bool>)
    ensures |r| == |Original(ps)|
  {
    if ps == [] then [] else
    (match ps[0] case Kept(_) => [false] case Hidden(v) => seq(|v|, _ => true)) + Covered(ps[1..])
  }

  function Width(p: Piece): nat {
    match p case Kept(_) => 1 case Hidden(v) => |v|
  }

  ghost predicate CoveredFrom(ps: seq<Piece>, k: nat, n: nat) {
    k + n <= |Covered(ps)| && forall i :: k <= i < k + n ==> Covered(ps)[i]
  }

  /** Every occurrence of a value in the original line is hidden as a whole. */
  ghost predicate Whole(ps: seq<Piece>, values: seq<Bytes>) {
    forall v, k: nat :: v in values && MatchesAt(Original(ps), v, k) ==> CoveredFrom(ps, k, |v|)
  }

  /** No proper end of `u` is a proper beginning of `v`. */
  ghost predicate Apart(u: Bytes, v: Bytes) {
    forall n :: 1 <= n < |u| && n < |v| ==> u[|u| - n..] != v[..n]
  }

  ghost predicate AllApart(values: seq<Bytes>) {
    forall u, v :: u in values && v in values ==> Apart(u, v)
  }

  // ---- Pieces, byte by byte ----

  /** Bytes past the first piece are those of the rest. */
  lemma {:induction false} PastFirst(ps: seq<Piece>, i: nat)
    requires ps != [] && Width(ps[0]) <= i <= |Original(ps)|
    ensures Original(ps)[i..] == Original(ps[1..])[i - Width(ps[0])..]
    ensures i < |Original(ps)| ==> Covered(ps)[i] == Covered(ps[1..])[i - Width(ps[0])]
  {
  }

  lemma {:induction false} MatchPastFirst(ps: seq<Piece>, v: Bytes, k: nat)
    requires ps != [] && Width(ps[0]) <= k && MatchesAt(Original(ps), v, k)
    ensures MatchesAt(Original(ps[1..]), v, k - Width(ps[0]))
  {
    PastFirst(ps, k);
  }

  lemma CoverPastFirst(ps: seq<Piece>, k: nat, n: nat)
    requires ps != [] && CoveredFrom(ps[1..], k, n)
    ensures CoveredFrom(ps, k + Width(ps[0]), n)
  {
  }

  lemma {:induction false} KeptFirst(ps: seq<Piece>)
    requires ps != [] && ps[0].Kept?
    ensures Original(ps) == [ps[0].b] + Original(ps[1..]) && Covered(ps) == [false] + Covered(ps[1..])
  {
  }

  lemma OneMoreBare(n: nat, rest: seq<bool>)
    requires n > 0
    ensures [false] + (seq(n - 1, _ => false) + rest) == seq(n, _ => false) + rest
  {
  }

  /** The bytes a value is spelled by are those of the next pieces, and none is hidden. */
  lemma {:induction false} SpelledBytes(ps: seq<Piece>, v: Bytes)
    requires Spells(ps, v)
    ensures Original(ps) == v + Original(ps[|v|..])
    ensures Covered(ps) == seq(|v|, _ => false) + Covered(ps[|v|..])
    decreases |v|
  {
    if v == [] {
      assert ps[0..] == ps;
    } else {
      SpellsOn(ps, v);
      KeptFirst(ps);
      hide Spells, Original, Covered;
      SpelledBytes(ps[1..], v[1..]);
      FrontFirst(v, Original(ps[|v|..]));
      OneMoreBare(|v|, Covered(ps[|v|..]));
    }
  }

  /** An occurrence none of whose bytes is hidden is spelled by kept bytes. */
  lemma {:induction false} UncoveredSpells(ps: seq<Piece>, v: Bytes)
    requires NoEmpties(ps) && v <= Original(ps) && forall i :: 0 <= i < |v| ==> !Covered(ps)[i]
    ensures Spells(ps, v)
    decreases |ps|
  {
    if v != [] {
      assert ps[0].Hidden? ==> Covered(ps)[0];
      assert ps[0].b == v[0];
      forall i | 0 <= i < |v| - 1 ensures !Covered(ps[1..])[i] {
        assert Covered(ps)[i + 1] == Covered(ps[1..])[i];
      }
      assert v[1..] <= Original(ps[1..]);
      UncoveredSpells(ps[1..], v[1..]);
    }
  }

  ghost predicate NoEmpties(ps: seq<Piece>) {
    forall i :: 0 <= i < |ps| && ps[i].Hidden? ==> ps[i].value != []
  }

  /** A hidden byte belongs to a piece: an occurrence of a hidden value, all of it hidden. */
  lemma {:induction false} BlockAt(ps: seq<Piece>, values: seq<Bytes>, i: nat) returns (s: nat, w: Bytes)
    requires HidesOnly(ps, values) && i < |Covered(ps)| && Covered(ps)[i]
    ensures w in values && s <= i < s + |w| && MatchesAt(Original(ps), w, s) && CoveredFrom(ps, s, |w|)
    decreases |ps|
  {
    var h := Width(ps[0]);
    if i < h {
      s, w := 0, ps[0].value;
      assert Original(ps)[0..] == Original(ps);
    } else {
      PastFirst(ps, i);
      s, w := BlockAt(ps[1..], values, i - h);
      CoverPastFirst(ps, s, |w|);
      PastFirst(ps, s + h);
      s := s + h;
    }
  }

  // ---- Hiding one more value ----

  lemma {:induction false} HideKeepsCovered(ps: seq<Piece>, v: Bytes)
    requires v != []
    ensures Original(Hide(ps, v)) == Original(ps)
    ensures forall i :: 0 <= i < |Covered(ps)| && Covered(ps)[i] ==> Covered(Hide(ps, v))[i]
    decreases |ps|
  {
    if ps == [] {
    } else if Spells(ps, v) {
      SpelledBytes(ps, v);
      HideKeepsCovered(ps[|v|..], v);
      assert Hide(ps, v)[1..] == Hide(ps[|v|..], v);
    } else {
      HideKeepsCovered(ps[1..], v);
      assert Hide(ps, v)[1..] == Hide(ps[1..], v);
    }
  }

  /** The scan hides every occurrence that is all kept, if the value does not overlap itself. */
  lemma {:induction false} HideCovers(ps: seq<Piece>, v: Bytes, k: nat)
    requires v != [] && Apart(v, v) && NoEmpties(ps)
    requires MatchesAt(Original(ps), v, k) && forall i :: k <= i < k + |v| ==> !Covered(ps)[i]
    ensures CoveredFrom(Hide(ps, v), k, |v|)
    decreases |ps|
  {
    if Spells(ps, v) {
      assert Hide(ps, v)[0] == Hidden(v) && Hide(ps, v)[1..] == Hide(ps[|v|..], v);
      if k > 0 {
        SpelledBytes(ps, v);
        NotInside(Original(ps), v, k);
        PastSpelled(ps, v, k);
        HideCovers(ps[|v|..], v, k - |v|);
        CoverPastFirst(Hide(ps, v), k - |v|, |v|);
      } else {
        FirstCovered(Hide(ps, v), v);
      }
    } else {
      HideCoversLater(ps, v, k);
      PastPiece(ps, v, k);
      HideCovers(ps[1..], v, k - Width(ps[0]));
      assert Hide(ps, v)[0] == ps[0] && Hide(ps, v)[1..] == Hide(ps[1..], v);
      CoverPastFirst(Hide(ps, v), k - Width(ps[0]), |v|);
    }
  }

  lemma FirstCovered(ps: seq<Piece>, v: Bytes)
    requires ps != [] && ps[0] == Hidden(v)
    ensures CoveredFrom(ps, 0, |v|)
  {
  }

  /** An occurrence further on, seen from behind the first piece. */
  lemma {:induction false} PastPiece(ps: seq<Piece>, v: Bytes, k: nat)
    requires ps != [] && Width(ps[0]) <= k && MatchesAt(Original(ps), v, k)
    requires forall i :: k <= i < k + |v| ==> !Covered(ps)[i]
    ensures var h := Width(ps[0]);
      && MatchesAt(Original(ps[1..]), v, k - h)
      && forall i :: k - h <= i < k - h + |v| ==> !Covered(ps[1..])[i]
  {
    var h := Width(ps[0]);
    MatchPastFirst(ps, v, k);
    forall i | k - h <= i < k - h + |v| ensures !Covered(ps[1..])[i] {
      PastFirst(ps, i + h);
    }
  }

  /** The same from behind a value spelled out. */
  lemma {:induction false} PastSpelled(ps: seq<Piece>, v: Bytes, k: nat)
    requires Spells(ps, v) && |v| <= k && MatchesAt(Original(ps), v, k)
    requires forall i :: k <= i < k + |v| ==> !Covered(ps)[i]
    ensures MatchesAt(Original(ps[|v|..]), v, k - |v|)
    ensures forall i :: k - |v| <= i < k ==> !Covered(ps[|v|..])[i]
  {
    SpelledBytes(ps, v);
    assert Original(ps)[k..] == Original(ps[|v|..])[k - |v|..];
    forall i | k - |v| <= i < k ensures !Covered(ps[|v|..])[i] {
      assert Covered(ps)[i + |v|] == Covered(ps[|v|..])[i];
    }
  }

  /** Occurrences of a value at 0 and soon after would overlap. */
  lemma NotInside(line: Bytes, v: Bytes, k: nat)
    requires v != [] && Apart(v, v) && v <= line && MatchesAt(line, v, k) && k > 0
    ensures k >= |v|
  {
    assert line[0..] == line;
    if k < |v| {
      OverlapIs(line, v, 0, v, k);
    }
  }

  /** `w` at `s` runs into `v` at `k`: its end is the beginning of `v`. */
  lemma OverlapIs(line: Bytes, w: Bytes, s: nat, v: Bytes, k: nat)
    requires MatchesAt(line, w, s) && MatchesAt(line, v, k) && s <= k <= s + |w| <= k + |v|
    ensures var n := s + |w| - k; w[|w| - n..] == v[..n]
  {
  }

  /** An all-kept occurrence that does not start here starts after the first piece. */
  lemma {:induction false} HideCoversLater(ps: seq<Piece>, v: Bytes, k: nat)
    requires v != [] && NoEmpties(ps) && !Spells(ps, v)
    requires MatchesAt(Original(ps), v, k) && forall i :: k <= i < k + |v| ==> !Covered(ps)[i]
    ensures ps != [] && k >= Width(ps[0])
  {
    if k == 0 {
      assert Original(ps)[0..] == Original(ps);
      UncoveredSpells(ps, v);
    } else if ps[0].Hidden? && k < |ps[0].value| {
      assert Covered(ps)[k];
    }
  }

  /** Occurrences of values that are apart, the second no longer than the first, are nested or disjoint. */
  lemma NestedOrDisjoint(line: Bytes, w: Bytes, s: nat, v: Bytes, k: nat, i: nat)
    requires |w| >= |v| && MatchesAt(line, w, s) && MatchesAt(line, v, k)
    requires s <= i < s + |w| && k <= i < k + |v|
    ensures Apart(w, v) && Apart(v, w) ==> s <= k && k + |v| <= s + |w|
  {
    if k < s {
      OverlapIs(line, v, k, w, s);
    } else if s + |w| < k + |v| {
      OverlapIs(line, w, s, v, k);
    }
  }

  lemma {:induction false} HideWhole(ps: seq<Piece>, before: seq<Bytes>, v: Bytes)
    requires Whole(ps, before) && HidesOnly(ps, before) && NoEmpties(ps) && v != [] && Apart(v, v)
    requires forall w :: w in before ==> |w| >= |v| && Apart(w, v) && Apart(v, w)
    ensures Whole(Hide(ps, v), before + [v])
  {
    HideKeepsCovered(ps, v);
    var after := Hide(ps, v);
    forall x, k: nat | x in before + [v] && MatchesAt(Original(after), x, k) ensures CoveredFrom(after, k, |x|) {
      if x in before {
        assert CoveredFrom(ps, k, |x|);
      } else if i :| k <= i < k + |v| && Covered(ps)[i] {
        var s, w := BlockAt(ps, before, i);
        NestedOrDisjoint(Original(ps), w, s, v, k, i);
      } else {
        HideCovers(ps, v, k);
      }
    }
  }

  // ---- All values ----

  lemma {:induction false} PiecesAreWhole(line: Bytes, values: seq<Bytes>)
    requires Registered(values) && AllRobust(values) && AllApart(values)
    ensures [] !in values && Whole(Pieces(line, values), values)
    ensures HidesOnly(Pieces(line, values), values) && NoEmpties(Pieces(line, values))
  {
    MaskExact(line, values);
    assert NoEmpties(Pieces(line, values));
    if values != [] {
      var n := |values| - 1;
      var rest := values[..n];
      assert values == rest + [values[n]];
      RestRegistered(values);
      PiecesAreWhole(line, rest);
      HideWhole(Pieces(line, rest), rest, values[n]);
    }
  }

  lemma RestRegistered(values: seq<Bytes>)
    requires Registered(values) && values != []
    ensures Registered(values[..|values| - 1])
    ensures forall w :: w in values[..|values| - 1] ==> |w| >= |values[|values| - 1]|
  {
  }

  /**
   No tails. If no registered value overlaps itself or another, every byte of every occurrence of a registered
   value in a line is hidden, whatever the line.
   */
  lemma {:induction false} NoTails(line: Bytes, values: seq<Bytes>)
    requires Registered(values) && AllRobust(values) && AllApart(values)
    ensures [] !in values && Shown(Pieces(line, values)) == MaskWith(line, values)
    ensures Whole(Pieces(line, values), values)
  {
    MaskExact(line, values);
    PiecesAreWhole(line, values);
  }

  // ---- And only then ----

  lemma {:induction false} HidesFirst(ps: seq<Piece>, v: Bytes, k: nat)
    requires v != [] && NoEmpties(ps)
    requires MatchesAt(Original(ps), v, k) && forall i :: 0 <= i < |ps| ==> ps[i].Kept?
    ensures Hidden(v) in Hide(ps, v)
    decreases |ps|
  {
    AllKept(ps);
    if Spells(ps, v) {
      assert Hide(ps, v)[0] == Hidden(v);
    } else {
      HideCoversLater(ps, v, k);
      MatchPastFirst(ps, v, k);
      HidesFirst(ps[1..], v, k - 1);
      assert Hide(ps, v)[1..] == Hide(ps[1..], v);
    }
  }

  lemma {:induction false} AllKept(ps: seq<Piece>)
    requires forall i :: 0 <= i < |ps| ==> ps[i].Kept?
    ensures forall i :: 0 <= i < |Covered(ps)| ==> !Covered(ps)[i]
  {
    if ps != [] {
      AllKept(ps[1..]);
    }
  }

  lemma {:induction false} HideKeepsHidden(ps: seq<Piece>, v: Bytes, w: Bytes)
    requires v != [] && Hidden(w) in ps
    ensures Hidden(w) in Hide(ps, v)
    decreases |ps|
  {
    if Spells(ps, v) {
      var i :| 0 <= i < |ps| && ps[i] == Hidden(w);
      assert ps[|v|..][i - |v|] == Hidden(w);
      HideKeepsHidden(ps[|v|..], v, w);
      assert Hide(ps, v)[1..] == Hide(ps[|v|..], v);
    } else {
      assert Hide(ps, v)[0] == ps[0] && Hide(ps, v)[1..] == Hide(ps[1..], v);
      if ps[0] != Hidden(w) {
        assert Hidden(w) in ps[1..];
        HideKeepsHidden(ps[1..], v, w);
      }
    }
  }

  /** Hidden pieces of at least `m` bytes, `w` among them, make up a line of |w| or at least |w| + m bytes. */
  lemma {:induction false} Tiled(ps: seq<Piece>, w: Bytes, m: nat)
    requires Hidden(w) in ps && forall i :: 0 <= i < |ps| ==> ps[i].Hidden? && |ps[i].value| >= m
    ensures |Original(ps)| == |w| || |Original(ps)| >= |w| + m
  {
    if |ps| == 1 {
      assert ps[1..] == [];
    } else if ps[0] == Hidden(w) {
      assert ps[1..][0].Hidden? && |ps[1..][0].value| >= m;
      assert |Original(ps[1..])| >= m;
    } else {
      assert Hidden(w) in ps[1..];
      Tiled(ps[1..], w, m);
    }
  }

  lemma {:induction false} AllCoveredAllHidden(ps: seq<Piece>)
    requires forall i :: 0 <= i < |Covered(ps)| ==> Covered(ps)[i]
    ensures forall i :: 0 <= i < |ps| ==> ps[i].Hidden?
  {
    if ps != [] {
      assert ps[0].Kept? ==> !Covered(ps)[0];
      forall i | 0 <= i < |Covered(ps[1..])| ensures Covered(ps[1..])[i] {
        PastFirst(ps, i + Width(ps[0]));
      }
      AllCoveredAllHidden(ps[1..]);
    }
  }

  /** The longest value is among the hidden pieces if it occurs at all. */
  lemma {:induction false} LongestIsHidden(line: Bytes, values: seq<Bytes>, k: nat)
    requires values != [] && [] !in values && MatchesAt(line, values[0], k)
    ensures Hidden(values[0]) in Pieces(line, values)
  {
    var n := |values| - 1;
    if n == 0 {
      assert Pieces(line, values[..0]) == Keep(line);
      KeepShowsAll(line);
      HidesFirst(Keep(line), values[0], k);
    } else {
      LongestIsHidden(line, values[..n], k);
      HideKeepsHidden(Pieces(line, values[..n]), values[n], values[0]);
    }
  }

  /** Values that overlap, and no others registered: the line they overlap in is not hidden as a whole. */
  lemma {:induction false} OverlapShows(values: seq<Bytes>, a: Bytes, b: Bytes, c: Bytes)
    requires values != [] && Registered(values) && AllRobust(values)
    requires a != [] && b != [] && c != [] && a + b in values && b + c in values
    requires forall w :: w in values ==> w == a + b || w == b + c
    ensures [] !in values && !Whole(Pieces(a + b + c, values), values)
  {
    var line, x, y, w := a + b + c, a + b, b + c, values[0];
    MaskExact(line, values);
    var ps := Pieces(line, values);
    TwoOccurrences(a, b, c);
    assert w in values && |w| >= |x| && |w| >= |y|;
    LongestIsHidden(line, values, if w == x then 0 else |a|);
    assert forall i :: 0 <= i < |ps| && ps[i].Hidden? ==> ps[i].value in values;
    WholeIsTiled(ps, values, w, a, b, c);
  }

  lemma TwoOccurrences(a: Bytes, b: Bytes, c: Bytes)
    ensures MatchesAt(a + b + c, a + b, 0) && MatchesAt(a + b + c, b + c, |a|)
  {
  }

  /** Beside the longest value there is room for no other, and more than none. */
  lemma {:induction false} WholeIsTiled(ps: seq<Piece>, values: seq<Bytes>, w: Bytes, a: Bytes, b: Bytes, c: Bytes)
    requires a != [] && b != [] && c != [] && Original(ps) == a + b + c
    requires a + b in values && b + c in values && (w == a + b || w == b + c) && Hidden(w) in ps
    requires |w| >= |a + b| && |w| >= |b + c|
    requires forall i :: 0 <= i < |ps| && ps[i].Hidden? ==> ps[i].value == a + b || ps[i].value == b + c
    ensures !Whole(ps, values)
  {
    var m := if |a| <= |c| then |a + b| else |b + c|;
    TwoOccurrences(a, b, c);
    if Whole(ps, values) {
      CoveredTwice(ps, |a + b|, |a|, |b + c|);
      Tiled(ps, w, m);
    }
  }

  lemma {:induction false} CoveredTwice(ps: seq<Piece>, n: nat, k: nat, m: nat)
    requires CoveredFrom(ps, 0, n) && CoveredFrom(ps, k, m) && k <= n && k + m == |Original(ps)|
    ensures forall i :: 0 <= i < |ps| ==> ps[i].Hidden?
  {
    forall i | 0 <= i < |Covered(ps)| ensures Covered(ps)[i] {
    }
    AllCoveredAllHidden(ps);
  }

  /** Where two values overlap. */
  lemma Overlapping(u: Bytes, v: Bytes) returns (a: Bytes, b: Bytes, c: Bytes)
    requires !Apart(u, v)
    ensures a != [] && b != [] && c != [] && a + b == u && b + c == v
  {
    var n :| 1 <= n < |u| && n < |v| && u[|u| - n..] == v[..n];
    a, b, c := u[..|u| - n], v[..n], v[n..];
  }

  /** A single value leaves no tail on any line if and only if it does not overlap itself. */
  lemma {:induction false} OneValueExactly(v: Bytes)
    requires |v| >= 4 && Robust(v)
    ensures (forall line :: Whole(Pieces(line, [v]), [v])) <==> Apart(v, v)
  {
    assert Registered([v]);
    if Apart(v, v) {
      forall line ensures Whole(Pieces(line, [v]), [v]) {
        NoTails(line, [v]);
      }
    } else {
      var a, b, c := Overlapping(v, v);
      OverlapShows([v], a, b, c);
    }
  }

  // ---- Two values ----

  function Power(v: Bytes, m: nat): Bytes {
    if m == 0 then [] else Power(v, m - 1) + v
  }

  ghost predicate Repeats(u: Bytes, v: Bytes) {
    exists m :: u == Power(v, m)
  }

  /** The longer overlaps neither, or is the shorter one over and over. */
  ghost predicate PairApart(u: Bytes, v: Bytes) {
    Apart(u, v) && Apart(v, u) && Apart(v, v) && (Apart(u, u) || Repeats(u, v))
  }

  lemma {:induction false} HideShort(ps: seq<Piece>, v: Bytes)
    requires |ps| < |v|
    ensures Hide(ps, v) == ps
    decreases |ps|
  {
    if ps != [] {
      HideShort(ps[1..], v);
    }
  }

  lemma {:induction false} HiddenOccurs(ps: seq<Piece>, i: nat) returns (s: nat)
    requires i < |ps| && ps[i].Hidden?
    ensures MatchesAt(Original(ps), ps[i].value, s)
  {
    if i == 0 {
      s := 0;
      assert Original(ps)[0..] == Original(ps);
    } else {
      s := HiddenOccurs(ps[1..], i - 1);
      PastFirst(ps, s + Width(ps[0]));
      s := s + Width(ps[0]);
    }
  }

  /** The shorter value overlaps itself: the longer one, apart from it, does not occur there to help. */
  lemma {:induction false} ShorterShows(u: Bytes, v: Bytes, a: Bytes, b: Bytes, c: Bytes)
    requires Registered([u, v]) && AllRobust([u, v]) && Apart(u, v) && Apart(v, u)
    requires a != [] && b != [] && c != [] && a + b == v == b + c
    ensures [] !in [u, v] && !Whole(Pieces(a + b + c, [u, v]), [u, v])
  {
    var values, line := [u, v], a + b + c;
    MaskExact(line, values);
    var ps := Pieces(line, values);
    TwoOccurrences(a, b, c);
    assert |values[0]| >= |values[1]| && values[0] != values[1];
    forall i | 0 <= i < |ps| && ps[i].Hidden? ensures ps[i].value == v {
      var s := HiddenOccurs(ps, i);
      assert ps[i].value in values;
      LongerElsewhere(u, v, a, b, c, s);
    }
    OneIsTiled(ps, values, v, a, b, c);
  }

  lemma {:induction false} OneIsTiled(ps: seq<Piece>, values: seq<Bytes>, v: Bytes, a: Bytes, b: Bytes, c: Bytes)
    requires a != [] && b != [] && c != [] && a + b == v == b + c && v in values && Original(ps) == a + b + c
    requires forall i :: 0 <= i < |ps| && ps[i].Hidden? ==> ps[i].value == v
    ensures !Whole(ps, values)
  {
    if Hidden(v) in ps {
      WholeIsTiled(ps, values, v, a, b, c);
    } else {
      TwoOccurrences(a, b, c);
      assert forall i :: 0 <= i < |ps| ==> ps[i].Kept?;
      AllKept(ps);
      assert |Covered(ps)| == |a + b + c| > 0 && !Covered(ps)[0];
    }
  }

  lemma LongerElsewhere(u: Bytes, v: Bytes, a: Bytes, b: Bytes, c: Bytes, s: nat)
    requires |u| >= |v| && a != [] && b != [] && c != [] && a + b == v == b + c
    ensures Apart(u, v) && Apart(v, u) && u != v ==> !MatchesAt(a + b + c, u, s)
  {
    var line := a + b + c;
    TwoOccurrences(a, b, c);
    if MatchesAt(line, u, s) && s < |v| {
      NestedOrDisjoint(line, u, s, v, 0, s);
      NestedOrDisjoint(line, u, s, v, |a|, if s <= |a| then |a| else s);
      // Nested both times: the longer one is the whole line, and begins the way the shorter one ends.
      EndsAlike(v, a, b, c);
      assert s == 0 && |u| == |line| ==> u == line;
    }
  }

  lemma EndsAlike(v: Bytes, a: Bytes, b: Bytes, c: Bytes)
    requires a != [] && b != [] && c != [] && a + b == v == b + c
    ensures !Apart(v, a + b + c)
  {
    var line, n := a + b + c, |b|;
    assert line == v + c;
    assert v[|v| - n..] == b && line[..n] == v[..n] == b;
  }

  /** The longer value overlaps itself and still all is hidden: then it is the shorter one over and over. */
  lemma {:induction false} LongerShows(u: Bytes, v: Bytes, a: Bytes, b: Bytes, c: Bytes)
    requires Registered([u, v]) && AllRobust([u, v]) && Apart(v, u)
    requires a != [] && b != [] && c != [] && a + b == u == b + c
    ensures [] !in [u, v]
    ensures Whole(Pieces(a + b + c, [u, v]), [u, v]) ==> Repeats(u, v)
  {
    var values, line := [u, v], a + b + c;
    MaskExact(line, values);
    var ps := Pieces(line, values);
    assert line == u + c;
    TwoOccurrences(a, b, c);
    LongerFirst(u, v, c);
    if Whole(ps, values) {
      assert u in values;
      CoveredTwice(ps, |u|, |a|, |u|);
      var j := RestRepeats(ps, u, v, c);
      EndRepeats(u, v, a, b, c, j);
    }
  }

  lemma {:induction false} RestRepeats(ps: seq<Piece>, u: Bytes, v: Bytes, c: Bytes) returns (j: nat)
    requires v != [] && c != [] && ps == [Hidden(u)] + Hide(Keep(c), v)
    requires forall i :: 0 <= i < |ps| ==> ps[i].Hidden?
    ensures j > 0 && c == Power(v, j)
  {
    var rest := Hide(Keep(c), v);
    assert ps[1..] == rest;
    forall i | 0 <= i < |rest| ensures rest[i].Hidden? {
      assert rest[i] == ps[i + 1];
    }
    KeepShowsAll(c);
    HideKeepsCovered(Keep(c), v);
    HideHidesOnly(Keep(c), v, [v]);
    j := AllOne(rest, v);
  }

  /** What overlaps itself and ends in copies of `v` is copies of `v`, unless `v` ends the way it begins. */
  lemma {:induction false} EndRepeats(u: Bytes, v: Bytes, a: Bytes, b: Bytes, c: Bytes, j: nat)
    requires v != [] && |v| <= |u| && j > 0 && c == Power(v, j) && a + b == u == b + c
    ensures Apart(v, u) ==> Repeats(u, v)
  {
    var i, t := TailRepeats(a, b, v, j);
    PowerAdds(v, i, j);
    assert u == t + Power(v, i + j) by {
      assert u == t + Power(v, i) + Power(v, j);
    }
    if t == [] {
      assert u == Power(v, i + j);
    } else {
      assert v[|v| - |t|..] == t == u[..|t|];
    }
  }

  lemma {:induction false} LongerFirst(u: Bytes, v: Bytes, c: Bytes)
    requires u != [] && v != [] && |c| < |u|
    ensures Pieces(u + c, [u, v]) == [Hidden(u)] + Hide(Keep(c), v)
  {
    var line := u + c;
    assert [u, v][..1] == [u] && [u][..0] == [];
    assert Spells(Keep(line), u) && Keep(line)[|u|..] == Keep(c);
    HideShort(Keep(c), u);
    var first := [Hidden(u)] + Keep(c);
    assert Hide(Keep(line), u) == first && first[1..] == Keep(c);
    assert Pieces(line, [u]) == first;
    assert first[0] != Kept(v[0]);
    assert Hide(first, v) == [Hidden(u)] + Hide(Keep(c), v);
  }

  lemma {:induction false} AllOne(ps: seq<Piece>, v: Bytes) returns (j: nat)
    requires forall i :: 0 <= i < |ps| ==> ps[i] == Hidden(v)
    ensures Original(ps) == Power(v, j) && (ps != [] ==> j > 0)
  {
    if ps == [] {
      j := 0;
    } else {
      var rest := AllOne(ps[1..], v);
      PowerAdds(v, 1, rest);
      PowerOne(v);
      j := 1 + rest;
    }
  }

  lemma {:induction false} PowerAdds(v: Bytes, i: nat, j: nat)
    ensures Power(v, i) + Power(v, j) == Power(v, i + j)
  {
    if j == 0 {
      assert Power(v, i) + [] == Power(v, i);
    } else {
      PowerAdds(v, i, j - 1);
      assert Power(v, i) + Power(v, j) == Power(v, i) + Power(v, j - 1) + v;
    }
  }

  /** What ends in itself after copies of `v` were added is copies of `v` behind a proper end of `v`. */
  lemma {:induction false} TailRepeats(p: Bytes, b: Bytes, v: Bytes, j: nat) returns (i: nat, t: Bytes)
    requires v != [] && j > 0 && p + b == b + Power(v, j)
    ensures b == t + Power(v, i) && |t| < |v| && t == v[|v| - |t|..]
    decreases |b|
  {
    var front := b + Power(v, j - 1);
    assert p + b == front + v;
    if |b| < |v| {
      i, t := 0, b;
      ShorterEnd(p, b, front, v);
      assert t + [] == b;
    } else {
      ShorterEnd(front, v, p, b);
      var d := b[..|b| - |v|];
      assert b == d + v;
      OneCopyLess(p, d, v, j);
      i, t := TailRepeats(p, d, v, j);
      assert b == t + (Power(v, i) + v);
      i := i + 1;
    }
  }

  lemma ShorterEnd(p: Bytes, b: Bytes, q: Bytes, v: Bytes)
    requires p + b == q + v && |b| <= |v|
    ensures b == v[|v| - |b|..]
  {
    var all := p + b;
    assert b == all[|all| - |b|..] && v == (q + v)[|q|..];
  }

  lemma {:induction false} OneCopyLess(p: Bytes, d: Bytes, v: Bytes, j: nat)
    requires p + (d + v) == (d + v) + Power(v, j)
    ensures p + d == d + Power(v, j)
  {
    CopiesCommute(v, j);
    assert (p + d) + v == p + (d + v) == d + (v + Power(v, j)) == d + (Power(v, j) + v) == (d + Power(v, j)) + v;
    SameFront(p + d, d + Power(v, j), v);
  }

  lemma SameFront(x: Bytes, y: Bytes, v: Bytes)
    requires x + v == y + v
    ensures x == y
  {
    assert x == (x + v)[..|x|] && y == (y + v)[..|y|];
  }

  lemma {:induction false} CopiesCommute(v: Bytes, j: nat)
    ensures v + Power(v, j) == Power(v, j) + v
  {
    PowerOne(v);
    PowerAdds(v, 1, j);
    PowerAdds(v, j, 1);
  }

  lemma {:induction false} PowerOne(v: Bytes)
    ensures Power(v, 1) == v
  {
  }

  /** Occurrences of the shorter value are all hidden, whatever the longer one does to itself. */
  lemma {:induction false} ShorterWhole(line: Bytes, u: Bytes, v: Bytes)
    requires Registered([u, v]) && AllRobust([u, v]) && Apart(u, v) && Apart(v, u) && Apart(v, v)
    ensures [] !in [u, v] && Whole(Pieces(line, [u, v]), [v])
  {
    assert [u, v][..1] == [u] && [u, v][0] in [u, v] && [u, v][1] in [u, v];
    assert |[u, v][0]| >= |[u, v][1]|;
    MaskExact(line, [u]);
    var ps := Pieces(line, [u]);
    assert Pieces(line, [u, v]) == Hide(ps, v);
    HideKeepsCovered(ps, v);
    forall k: nat | MatchesAt(Original(ps), v, k) ensures CoveredFrom(Hide(ps, v), k, |v|) {
      ShorterCovered(ps, u, v, k);
    }
  }

  lemma {:induction false} ShorterCovered(ps: seq<Piece>, u: Bytes, v: Bytes, k: nat)
    requires HidesOnly(ps, [u]) && NoEmpties(ps) && v != [] && |u| >= |v|
    requires Apart(u, v) && Apart(v, u) && Apart(v, v) && MatchesAt(Original(ps), v, k)
    ensures CoveredFrom(Hide(ps, v), k, |v|)
  {
    HideKeepsCovered(ps, v);
    if i :| k <= i < k + |v| && Covered(ps)[i] {
      var s, w := BlockAt(ps, [u], i);
      NestedOrDisjoint(Original(ps), w, s, v, k, i);
    } else {
      HideCovers(ps, v, k);
    }
  }

  lemma {:induction false} PowerEnds(line: Bytes, v: Bytes, m: nat, k: nat)
    requires m > 0 && MatchesAt(line, Power(v, m), k)
    ensures MatchesAt(line, Power(v, m - 1), k) && MatchesAt(line, v, k + |Power(v, m - 1)|)
    ensures |Power(v, m)| == |Power(v, m - 1)| + |v|
  {
    var n := |Power(v, m - 1)|;
    assert line[k..][..n] == Power(v, m - 1);
    assert line[k + n..] == line[k..][n..];
    assert Power(v, m)[n..] == v;
  }

  lemma {:induction false} PowerWhole(ps: seq<Piece>, v: Bytes, m: nat, k: nat)
    requires Whole(ps, [v]) && MatchesAt(Original(ps), Power(v, m), k)
    ensures CoveredFrom(ps, k, |Power(v, m)|)
  {
    if m > 0 {
      PowerEnds(Original(ps), v, m, k);
      PowerWhole(ps, v, m - 1, k);
    }
  }

  /**
   Two values leave no tail on any line if and only if they are apart from each other, the shorter one from
   itself, and the longer one from itself unless it is the shorter one repeated.
   */
  lemma {:induction false} TwoValuesExactly(u: Bytes, v: Bytes)
    requires Registered([u, v]) && AllRobust([u, v])
    ensures [] !in [u, v]
    ensures (forall line :: Whole(Pieces(line, [u, v]), [u, v])) <==> PairApart(u, v)
  {
    var values := [u, v];
    if PairApart(u, v) {
      forall line ensures Whole(Pieces(line, values), values) {
        TwoValuesWhole(line, u, v);
      }
    } else {
      var line := TailLine(u, v);
    }
  }

  lemma {:induction false} TwoValuesWhole(line: Bytes, u: Bytes, v: Bytes)
    requires Registered([u, v]) && AllRobust([u, v]) && PairApart(u, v)
    ensures [] !in [u, v] && Whole(Pieces(line, [u, v]), [u, v])
  {
    if Apart(u, u) {
      NoTails(line, [u, v]);
    } else {
      ShorterWhole(line, u, v);
      var ps := Pieces(line, [u, v]);
      var m :| u == Power(v, m);
      forall k: nat | MatchesAt(Original(ps), u, k) ensures CoveredFrom(ps, k, |u|) {
        PowerWhole(ps, v, m, k);
      }
    }
  }

  lemma TailLine(u: Bytes, v: Bytes) returns (line: Bytes)
    requires Registered([u, v]) && AllRobust([u, v]) && !PairApart(u, v)
    ensures [] !in [u, v] && !Whole(Pieces(line, [u, v]), [u, v])
  {
    var a, b, c;
    if !Apart(u, v) {
      a, b, c := Overlapping(u, v);
      OverlapShows([u, v], a, b, c);
    } else if !Apart(v, u) {
      a, b, c := Overlapping(v, u);
      OverlapShows([u, v], a, b, c);
    } else if !Apart(v, v) {
      a, b, c := Overlapping(v, v);
      ShorterShows(u, v, a, b, c);
    } else {
      a, b, c := Overlapping(u, u);
      LongerShows(u, v, a, b, c);
    }
    line := a + b + c;
  }
}
