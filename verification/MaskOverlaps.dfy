/**
 When masking leaves no tails: it is enough to look at the lines in which two values overlap, for masking is greedy.
 What is not hidden meets something hidden earlier: a value listed earlier, or the same value further left.
 */
module MaskOverlaps {
  import opened Masking
  import opened MaskTails

  // ---- Where the hidden pieces are ----

  /** The piece that hides `w` starts at byte `k` of the original line. */
  ghost predicate At(ps: seq<Piece>, w: Bytes, k: nat) {
    ps != [] && ((k == 0 && ps[0] == Hidden(w)) || (k >= Width(ps[0]) && At(ps[1..], w, k - Width(ps[0]))))
  }

  ghost predicate Meet(k: nat, n: nat, l: nat, m: nat) {
    k < l + m && l < k + n
  }

  lemma {:induction false} AtIsHidden(ps: seq<Piece>, w: Bytes, k: nat)
    requires At(ps, w, k)
    ensures MatchesAt(Original(ps), w, k) && CoveredFrom(ps, k, |w|) && Hidden(w) in ps
  {
    var h := Width(ps[0]);
    if k == 0 && ps[0] == Hidden(w) {
      assert Original(ps)[0..] == Original(ps);
    } else {
      AtIsHidden(ps[1..], w, k - h);
      PastFirst(ps, k);
      CoverPastFirst(ps, k - h, |w|);
    }
  }

  /** Two pieces do not meet. */
  lemma {:induction false} AtApart(ps: seq<Piece>, w: Bytes, k: nat, v: Bytes, l: nat)
    requires At(ps, w, k) && At(ps, v, l) && w != [] && v != [] && Meet(k, |w|, l, |v|)
    ensures w == v && k == l
  {
    var h := Width(ps[0]);
    if k >= h && l >= h {
      AtApart(ps[1..], w, k - h, v, l - h);
    }
  }

  lemma {:induction false} CoveredIsAt(ps: seq<Piece>, i: nat) returns (w: Bytes, k: nat)
    requires i < |Covered(ps)| && Covered(ps)[i]
    ensures At(ps, w, k) && k <= i < k + |w|
  {
    var h := Width(ps[0]);
    if i < h {
      w, k := ps[0].value, 0;
    } else {
      PastFirst(ps, i);
      w, k := CoveredIsAt(ps[1..], i - h);
      k := k + h;
    }
  }

  // ---- Hiding one more value ----

  /** Pieces behind a value spelled out. */
  lemma {:induction false} AtPastSpelled(ps: seq<Piece>, v: Bytes, w: Bytes, k: nat)
    requires Spells(ps, v) && w != []
    ensures At(ps, w, k) <==> k >= |v| && At(ps[|v|..], w, k - |v|)
    decreases |v|
  {
    if v == [] {
      assert ps[0..] == ps;
    } else {
      SpellsOn(ps, v);
      hide Spells;
      if k >= 1 {
        AtPastSpelled(ps[1..], v[1..], w, k - 1);
      }
    }
  }

  /** What was hidden stays hidden, and what is hidden now is the value. */
  lemma {:induction false} HideAt(ps: seq<Piece>, v: Bytes, w: Bytes, k: nat)
    requires v != [] && w != []
    ensures At(ps, w, k) ==> At(Hide(ps, v), w, k)
    ensures At(Hide(ps, v), w, k) ==> At(ps, w, k) || w == v
    decreases |ps|
  {
    if ps == [] {
    } else if Spells(ps, v) {
      HideSpelled(ps, v);
      AtPastSpelled(ps, v, w, k);
      if k >= |v| {
        HideAt(ps[|v|..], v, w, k - |v|);
      }
    } else {
      HideUnspelled(ps, v);
      if k >= Width(ps[0]) {
        HideAt(ps[1..], v, w, k - Width(ps[0]));
      }
    }
  }

  lemma {:induction false} HideSpelled(ps: seq<Piece>, v: Bytes)
    requires v != [] && Spells(ps, v)
    ensures ps != [] && Hide(ps, v) == [Hidden(v)] + Hide(ps[|v|..], v)
    ensures Hide(ps, v)[0] == Hidden(v) && Hide(ps, v)[1..] == Hide(ps[|v|..], v)
  {
  }

  lemma {:induction false} HideUnspelled(ps: seq<Piece>, v: Bytes)
    requires v != [] && ps != [] && !Spells(ps, v)
    ensures Hide(ps, v) != [] && Hide(ps, v)[0] == ps[0] && Hide(ps, v)[1..] == Hide(ps[1..], v)
  {
  }

  /** Why an occurrence is not hidden: it meets a piece that was there, or one of the same value further left. */
  ghost predicate Blocked(ps: seq<Piece>, v: Bytes, k: nat, w: Bytes, l: nat) {
    Meet(k, |v|, l, |w|) && (At(ps, w, l) || (w == v && l < k && At(Hide(ps, v), v, l)))
  }

  lemma {:induction false} HidesOrBlocked(ps: seq<Piece>, v: Bytes, k: nat) returns (w: Bytes, l: nat)
    requires v != [] && NoEmpties(ps) && MatchesAt(Original(ps), v, k)
    ensures At(Hide(ps, v), v, k) || (w != [] && Blocked(ps, v, k, w, l))
    decreases |ps|
  {
    w, l := v, 0;
    if Spells(ps, v) {
      HideSpelled(ps, v);
      if k >= |v| {
        w, l := HidesBehind(ps, v, k);
      }
    } else if i :| k <= i < k + |v| && Covered(ps)[i] {
      w, l := CoveredIsAt(ps, i);
    } else {
      HideCoversLater(ps, v, k);
      w, l := HidesLater(ps, v, k);
    }
  }

  lemma {:induction false} MatchPastSpelled(ps: seq<Piece>, v: Bytes, k: nat)
    requires Spells(ps, v) && NoEmpties(ps) && MatchesAt(Original(ps), v, k) && k >= |v|
    ensures |v| <= |ps| && NoEmpties(ps[|v|..]) && MatchesAt(Original(ps[|v|..]), v, k - |v|)
  {
    SpelledBytes(ps, v);
    hide Covered, Original;
    assert Original(ps)[k..] == Original(ps[|v|..])[k - |v|..];
  }

  lemma {:induction false} HidesBehind(ps: seq<Piece>, v: Bytes, k: nat) returns (w: Bytes, l: nat)
    requires v != [] && NoEmpties(ps) && MatchesAt(Original(ps), v, k) && Spells(ps, v) && k >= |v|
    ensures At(Hide(ps, v), v, k) || (w != [] && Blocked(ps, v, k, w, l))
    decreases |ps|, 0
  {
    HideSpelled(ps, v);
    MatchPastSpelled(ps, v, k);
    hide Hide, Original, Covered, Spells, NoEmpties, MatchesAt, At;
    w, l := HidesOrBlocked(ps[|v|..], v, k - |v|);
    l := l + |v|;
    AtPastSpelled(ps, v, v, k);
    if w != [] {
      AtPastSpelled(ps, v, w, l);
      AtPastSpelled(ps, v, v, l);
    }
  }

  lemma AtPastFirst(ps: seq<Piece>, w: Bytes, k: nat)
    requires ps != [] && k >= Width(ps[0]) > 0
    ensures At(ps, w, k) <==> At(ps[1..], w, k - Width(ps[0]))
  {
  }

  lemma {:induction false} HidesLater(ps: seq<Piece>, v: Bytes, k: nat) returns (w: Bytes, l: nat)
    requires v != [] && NoEmpties(ps) && MatchesAt(Original(ps), v, k) && !Spells(ps, v)
    requires ps != [] && k >= Width(ps[0])
    ensures At(Hide(ps, v), v, k) || (w != [] && Blocked(ps, v, k, w, l))
    decreases |ps|, 0
  {
    var h := Width(ps[0]);
    HideUnspelled(ps, v);
    MatchPastFirst(ps, v, k);
    assert h > 0 && NoEmpties(ps[1..]);
    hide Hide, At, Covered, Spells, NoEmpties, MatchesAt;
    w, l := HidesOrBlocked(ps[1..], v, k - h);
    l := l + h;
    AtPastFirst(Hide(ps, v), v, k);
    if w != [] {
      AtPastFirst(ps, w, l);
      AtPastFirst(Hide(ps, v), v, l);
    }
  }

  // ---- All values: the greedy choice ----

  lemma {:induction false} PiecesOf(line: Bytes, values: seq<Bytes>)
    requires [] !in values
    ensures var ps := Pieces(line, values); Original(ps) == line && HidesOnly(ps, values) && NoEmpties(ps)
  {
    if values == [] {
      KeepShowsAll(line);
    } else {
      var n := |values| - 1;
      assert values[n] in values && forall v :: v in values[..n] ==> v in values;
      PiecesOf(line, values[..n]);
      HideKeepsCovered(Pieces(line, values[..n]), values[n]);
      HideHidesOnly(Pieces(line, values[..n]), values[n], values);
    }
  }

  /** The occurrence of value `j` at byte `k` is one of those hidden. */
  ghost predicate Picked(line: Bytes, values: seq<Bytes>, j: nat, k: nat)
    requires j < |values| && [] !in values
  {
    At(Pieces(line, values), values[j], k)
  }

  predicate Earlier(j: nat, k: nat, j': nat, k': nat) {
    j < j' || (j == j' && k < k')
  }

  /** An occurrence is hidden, or meets one that is and went first. */
  lemma {:induction false} PickedOrBlocked(line: Bytes, values: seq<Bytes>, j: nat, k: nat) returns (j': nat, k': nat)
    requires j < |values| && [] !in values && MatchesAt(line, values[j], k)
    ensures Picked(line, values, j, k) ||
      (j' < |values| && Picked(line, values, j', k') && Earlier(j', k', j, k) && Meet(k, |values[j]|, k', |values[j']|))
  {
    var n := |values| - 1;
    var rest, v := values[..n], values[n];
    assert v in values && forall w :: w in rest ==> w in values;
    PiecesOf(line, rest);
    var ps := Pieces(line, rest);
    if j < n {
      j', k' := PickedOrBlocked(line, rest, j, k);
      assert values[j] in values && values[j] != [];
      HideAt(ps, v, values[j], k);
      if j' < n {
        assert values[j'] in values && values[j'] != [];
        HideAt(ps, v, values[j'], k');
      }
    } else {
      j', k' := LastPickedOrBlocked(ps, rest, v, k);
      if j' < n {
        assert values[j'] in values && values[j'] != [];
        HideAt(ps, v, values[j'], k');
      }
    }
  }

  lemma {:induction false} LastPickedOrBlocked(ps: seq<Piece>, rest: seq<Bytes>, v: Bytes, k: nat)
      returns (j': nat, k': nat)
    requires HidesOnly(ps, rest) && NoEmpties(ps) && v != [] && MatchesAt(Original(ps), v, k)
    ensures j' <= |rest|
    ensures At(Hide(ps, v), v, k) ||
      (if j' < |rest| then At(ps, rest[j'], k') && Meet(k, |v|, k', |rest[j']|)
       else At(Hide(ps, v), v, k') && k' < k && Meet(k, |v|, k', |v|))
  {
    var w, l := HidesOrBlocked(ps, v, k);
    j', k' := |rest|, l;
    if At(ps, w, l) {
      AtIsHidden(ps, w, l);
      var i :| 0 <= i < |ps| && ps[i] == Hidden(w);
      assert w in rest;
      j' :| j' < |rest| && rest[j'] == w;
    }
  }

  /** Hidden occurrences do not meet. */
  lemma {:induction false} PickedApart(line: Bytes, values: seq<Bytes>, j: nat, k: nat, j': nat, k': nat)
    requires j < |values| && j' < |values| && [] !in values && NoRepeats(values)
    requires Picked(line, values, j, k) && Picked(line, values, j', k')
    ensures Meet(k, |values[j]|, k', |values[j']|) ==> j == j' && k == k'
  {
    assert values[j] in values && values[j'] in values;
    if Meet(k, |values[j]|, k', |values[j']|) {
      AtApart(Pieces(line, values), values[j], k, values[j'], k');
    }
  }

  lemma {:induction false} PickedMatches(line: Bytes, values: seq<Bytes>, j: nat, k: nat)
    requires j < |values| && [] !in values && Picked(line, values, j, k)
    ensures MatchesAt(line, values[j], k) && k + |values[j]| <= |line| && values[j] != []
    ensures CoveredFrom(Pieces(line, values), k, |values[j]|) && |Covered(Pieces(line, values))| == |line|
  {
    PiecesOf(line, values);
    AtIsHidden(Pieces(line, values), values[j], k);
    assert values[j] in values;
  }

  lemma {:induction false} CoveredIsPicked(line: Bytes, values: seq<Bytes>, i: nat) returns (j: nat, k: nat)
    requires [] !in values && i < |Covered(Pieces(line, values))| && Covered(Pieces(line, values))[i]
    ensures j < |values| && Picked(line, values, j, k) && k <= i < k + |values[j]|
  {
    PiecesOf(line, values);
    var ps := Pieces(line, values);
    var w, l := CoveredIsAt(ps, i);
    AtIsHidden(ps, w, l);
    var n :| 0 <= n < |ps| && ps[n] == Hidden(w);
    assert w in values;
    j :| j < |values| && values[j] == w;
    k := l;
  }

  // ---- Cutting lines ----

  /** No hidden occurrence reaches across the gap before byte `s`. */
  ghost predicate Gap(line: Bytes, values: seq<Bytes>, s: nat)
    requires [] !in values
  {
    forall j: nat, k: nat :: j < |values| && Picked(line, values, j, k) ==> k + |values[j]| <= s || s <= k
  }

  lemma {:induction false} Ends(line: Bytes, values: seq<Bytes>)
    requires [] !in values
    ensures Gap(line, values, 0) && Gap(line, values, |line|)
  {
    forall j: nat, k: nat | j < |values| && Picked(line, values, j, k) ensures k + |values[j]| <= |line| {
      PickedMatches(line, values, j, k);
    }
  }

  /** There are gaps on both sides of a hidden occurrence. */
  lemma {:induction false} Edges(line: Bytes, values: seq<Bytes>, j: nat, k: nat)
    requires j < |values| && [] !in values && NoRepeats(values) && Picked(line, values, j, k)
    ensures Gap(line, values, k) && Gap(line, values, k + |values[j]|)
  {
    PickedMatches(line, values, j, k);
    forall j': nat, k': nat | j' < |values| && Picked(line, values, j', k')
      ensures Meet(k, |values[j]|, k', |values[j']|) ==> j == j' && k == k'
    {
      PickedApart(line, values, j, k, j', k');
    }
    hide Picked;
  }

  lemma MatchInside(line: Bytes, s: nat, e: nat, v: Bytes, k: nat)
    requires s <= e <= |line|
    ensures MatchesAt(line[s..e], v, k) <==> k + |v| <= e - s && MatchesAt(line, v, k + s)
  {
    var sub := line[s..e];
    if MatchesAt(sub, v, k) {
      assert sub[k..][..|v|] == line[k + s..][..|v|];
    }
    if k + |v| <= e - s && MatchesAt(line, v, k + s) {
      assert sub[k..][..|v|] == line[k + s..][..|v|];
    }
  }

  /** A line cut at gaps is masked part by part. */
  lemma {:induction false} CutSame(line: Bytes, values: seq<Bytes>, s: nat, e: nat, j: nat, k: nat)
    requires j < |values| && [] !in values && NoRepeats(values) && s <= e <= |line|
    requires Gap(line, values, s) && Gap(line, values, e) && MatchesAt(line[s..e], values[j], k)
    ensures Picked(line[s..e], values, j, k) <==> Picked(line, values, j, k + s)
    decreases j, k
  {
    hide Picked, NoRepeats, Covered, CoveredFrom, Pieces, MatchesAt;
    var sub := line[s..e];
    assert values[j] in values && values[j] != [];
    MatchInside(line, s, e, values[j], k);
    if !Picked(sub, values, j, k) {
      var j', k' := PickedOrBlocked(sub, values, j, k);
      PickedMatches(sub, values, j', k');
      CutSame(line, values, s, e, j', k');
      if Picked(line, values, j, k + s) {
        PickedApart(line, values, j, k + s, j', k' + s);
      }
    }
    if !Picked(line, values, j, k + s) {
      var j', k' := PickedOrBlocked(line, values, j, k + s);
      PickedMatches(line, values, j', k');
      assert s <= k' && k' + |values[j']| <= e;
      MatchInside(line, s, e, values[j'], k' - s);
      CutSame(line, values, s, e, j', k' - s);
      if Picked(sub, values, j, k) {
        PickedApart(sub, values, j, k, j', k' - s);
      }
    }
  }

  // ---- Bytes left over ----

  /** Byte `i` of the occurrence of value `j` at `k` is not hidden. */
  ghost predicate Bare(line: Bytes, values: seq<Bytes>, j: nat, k: nat, i: nat)
    requires j < |values| && [] !in values
  {
    && MatchesAt(line, values[j], k) && k <= i < k + |values[j]|
    && |Covered(Pieces(line, values))| == |line|
    && i < |line| && !Covered(Pieces(line, values))[i]
  }

  lemma {:induction false} BareIsNotWhole(line: Bytes, values: seq<Bytes>, j: nat, k: nat, i: nat)
    requires j < |values| && [] !in values && Bare(line, values, j, k, i)
    ensures !Whole(Pieces(line, values), values)
  {
    PiecesOf(line, values);
    assert values[j] in values;
  }

  /** A bare byte is bare in every part of the line that keeps its occurrence and is cut at gaps. */
  lemma {:induction false} CutBare(line: Bytes, values: seq<Bytes>, s: nat, e: nat, j: nat, k: nat, i: nat)
    requires j < |values| && [] !in values && NoRepeats(values) && s <= e <= |line|
    requires Gap(line, values, s) && Gap(line, values, e)
    requires Bare(line, values, j, k, i) && s <= k && k + |values[j]| <= e
    ensures Bare(line[s..e], values, j, k - s, i - s)
  {
    var sub := line[s..e];
    MatchInside(line, s, e, values[j], k - s);
    PiecesOf(sub, values);
    hide Picked, Gap, NoRepeats, Covered, Pieces, MatchesAt;
    if Covered(Pieces(sub, values))[i - s] {
      var j', k' := CoveredIsPicked(sub, values, i - s);
      PickedMatches(sub, values, j', k');
      CutSame(line, values, s, e, j', k');
      PickedMatches(line, values, j', k' + s);
    }
  }

  /** Shorter lines leave no tails. */
  ghost predicate Below(values: seq<Bytes>, n: nat)
    requires [] !in values
  {
    forall l: Bytes :: |l| < n ==> Whole(Pieces(l, values), values)
  }

  lemma {:induction false} NotBelow(l: Bytes, values: seq<Bytes>, n: nat)
    requires [] !in values && Below(values, n) && !Whole(Pieces(l, values), values)
    ensures |l| >= n
  {
    hide Pieces, Whole;
  }

  lemma BareInside(line: Bytes, values: seq<Bytes>, j: nat, k: nat, i: nat)
    requires j < |values| && [] !in values && Bare(line, values, j, k, i)
    ensures k <= i < k + |values[j]| <= |line|
  {
    hide Pieces, Covered;
  }

  /** A line without shorter ones that leave tails cannot be cut around an occurrence with a bare byte. */
  lemma {:induction false} OnlyTheWhole(line: Bytes, values: seq<Bytes>, s: nat, e: nat, j: nat, k: nat, i: nat)
    requires j < |values| && [] !in values && NoRepeats(values) && s <= e <= |line|
    requires Gap(line, values, s) && Gap(line, values, e) && Below(values, |line|)
    requires Bare(line, values, j, k, i) && s <= k && k + |values[j]| <= e
    ensures s == 0 && e == |line|
  {
    hide Bare, Below, Gap, Whole, Pieces, NoRepeats, Covered, Picked, MatchesAt;
    BareInside(line, values, j, k, i);
    CutBare(line, values, s, e, j, k, i);
    var sub := line[s..e];
    BareIsNotWhole(sub, values, j, k - s, i - s);
    NotBelow(sub, values, |line|);
  }

  /** In a part of the line a byte of an occurrence is hidden by one that is bare in the line if the byte is. */
  lemma {:induction false} HiddenInPart(line: Bytes, values: seq<Bytes>, s: nat, e: nat, j: nat, k: nat, i: nat)
      returns (r: nat, l: nat)
    requires j < |values| && [] !in values && s <= e <= |line| && e - s < |line| && Below(values, |line|)
    requires Bare(line, values, j, k, i) && s <= k && k + |values[j]| <= e
    ensures r < |values| && Picked(line[s..e], values, r, l) && Bare(line, values, r, l + s, i)
    ensures l + |values[r]| <= e - s
  {
    var sub := line[s..e];
    MatchInside(line, s, e, values[j], k - s);
    PiecesOf(sub, values);
    assert values[j] in values && Whole(Pieces(sub, values), values);
    r, l := CoveredIsPicked(sub, values, i - s);
    PickedMatches(sub, values, r, l);
    MatchInside(line, s, e, values[r], l);
  }

  /** Wherever two values overlap, and nothing else is in the line, everything is hidden. */
  ghost predicate OverlapsHidden(values: seq<Bytes>)
    requires [] !in values
  {
    forall j: nat, j': nat, n: nat :: j < |values| && j' < |values| ==> OverlapHidden(values, j, j', n)
  }

  ghost predicate OverlapHidden(values: seq<Bytes>, j: nat, j': nat, n: nat)
    requires j < |values| && j' < |values| && [] !in values
  {
    Overlap(values[j], values[j'], n) ==> AllHidden(Pieces(values[j] + values[j'][n..], values))
  }

  ghost predicate AllHidden(ps: seq<Piece>) {
    forall p :: p in ps ==> p.Hidden?
  }

  /** The last `n` bytes of `u` are the first of `v`. */
  predicate Overlap(u: Bytes, v: Bytes, n: nat) {
    1 <= n < |u| && n < |v| && u[|u| - n..] == v[..n]
  }

  lemma {:induction false} AllHiddenCovered(ps: seq<Piece>, i: nat)
    requires i < |Covered(ps)| && AllHidden(ps)
    ensures Covered(ps)[i]
  {
    assert ps[0] in ps;
    if i >= Width(ps[0]) {
      PastFirst(ps, i);
      AllHiddenCovered(ps[1..], i - Width(ps[0]));
    }
  }

  lemma Overlapping(line: Bytes, u: Bytes, v: Bytes, k: nat)
    requires MatchesAt(line, u, 0) && MatchesAt(line, v, k) && 0 < k < |u| < |line| == k + |v|
    ensures Overlap(u, v, |u| - k) && line == u + v[|u| - k..]
  {
    assert line[0..] == line && line[k..] == v;
  }

  /** Two overlapping occurrences do not make up a line with a bare byte. */
  lemma {:induction false} MoreThanOverlap(line: Bytes, values: seq<Bytes>, j: nat, j': nat, k: nat, i: nat)
    requires j < |values| && j' < |values| && [] !in values && OverlapsHidden(values)
    requires MatchesAt(line, values[j], 0) && MatchesAt(line, values[j'], k)
    requires 0 < k < |values[j]| < |line| && i < |Covered(Pieces(line, values))| && !Covered(Pieces(line, values))[i]
    ensures k + |values[j']| != |line|
  {
    hide Covered, MatchesAt, Overlap, Pieces, AllHidden;
    if k + |values[j']| == |line| {
      Overlapping(line, values[j], values[j'], k);
      assert OverlapHidden(values, j, j', |values[j]| - k);
      AllHiddenCovered(Pieces(line, values), i);
    }
  }

  /** An occurrence with a bare byte meets one that went first, is no shorter and does not hide the byte. */
  lemma {:induction false} BareIsBlocked(line: Bytes, values: seq<Bytes>, j: nat, k: nat, i: nat)
      returns (b: nat, l: nat)
    requires j < |values| && [] !in values && LongestFirst(values) && Bare(line, values, j, k, i)
    ensures b < |values| && Picked(line, values, b, l) && Earlier(b, l, j, k)
    ensures Meet(k, |values[j]|, l, |values[b]|) && |values[b]| >= |values[j]| && l + |values[b]| <= |line|
    ensures l + |values[b]| <= i || i < l
  {
    if Picked(line, values, j, k) {
      PickedMatches(line, values, j, k);
    }
    b, l := PickedOrBlocked(line, values, j, k);
    PickedMatches(line, values, b, l);
  }

  /** The occurrence that reaches across where there is no gap. */
  lemma {:induction false} Across(line: Bytes, values: seq<Bytes>, s: nat, i: nat) returns (j: nat, k: nat)
    requires [] !in values && !Gap(line, values, s)
    requires i < |line| && |Covered(Pieces(line, values))| == |line| && !Covered(Pieces(line, values))[i]
    ensures j < |values| && Picked(line, values, j, k) && k < s < k + |values[j]| <= |line|
    ensures k + |values[j]| <= i || i < k
  {
    j, k :| j < |values| && Picked(line, values, j, k) && k < s < k + |values[j]|;
    PickedMatches(line, values, j, k);
  }

  /** What a shortest line that leaves a tail looks like: hidden at both ends, and one of these went first. */
  ghost predicate Spanned(line: Bytes, values: seq<Bytes>, y: nat, z: nat, l: nat, j: nat, k: nat, i: nat)
    requires [] !in values
  {
    && j < |values| && y < |values| && z < |values|
    && Picked(line, values, y, 0) && Picked(line, values, z, l) && l + |values[z]| == |line|
    && 0 < k < |values[y]| <= i < l < k + |values[j]| < |line|
    && (Earlier(y, 0, j, k) || Earlier(z, l, j, k))
  }

  lemma {:induction false} Spans(line: Bytes, values: seq<Bytes>, j: nat, k: nat, i: nat)
      returns (y: nat, z: nat, l: nat)
    requires j < |values| && [] !in values && LongestFirst(values) && NoRepeats(values)
    requires OverlapsHidden(values) && Below(values, |line|) && Bare(line, values, j, k, i)
    ensures Spanned(line, values, y, z, l, j, k, i)
  {
    var b, m := BareIsBlocked(line, values, j, k, i);
    if m + |values[b]| <= i {
      y := b;
      z, l := SpansFromLeft(line, values, j, k, i, b, m);
    } else {
      z, l := b, m;
      y := SpansFromRight(line, values, j, k, i, b, m);
    }
  }

  lemma {:induction false} SpansFromLeft(
      line: Bytes, values: seq<Bytes>, j: nat, k: nat, i: nat, y: nat, m: nat) returns (z: nat, l: nat)
    requires j < |values| && [] !in values && NoRepeats(values)
    requires OverlapsHidden(values) && Below(values, |line|) && Bare(line, values, j, k, i)
    requires y < |values| && Picked(line, values, y, m) && Earlier(y, m, j, k)
    requires |values[y]| >= |values[j]| && k < m + |values[y]| <= i
    ensures m == 0 && Spanned(line, values, y, z, l, j, k, i)
  {
    var e := k + |values[j]|;
    PickedMatches(line, values, y, m);
    Edges(line, values, y, m);
    Ends(line, values);
    OnlyTheWhole(line, values, m, |line|, j, k, i);
    MoreThanOverlap(line, values, y, j, k, i);
    hide Picked, Gap, OverlapsHidden, Covered, Pieces;
    if Gap(line, values, e) {
      OnlyTheWhole(line, values, 0, e, j, k, i);
    }
    z, l := Across(line, values, e, i);
    Edges(line, values, z, l);
    OnlyTheWhole(line, values, 0, l + |values[z]|, j, k, i);
  }

  lemma {:induction false} SpansFromRight(
      line: Bytes, values: seq<Bytes>, j: nat, k: nat, i: nat, z: nat, l: nat) returns (y: nat)
    requires j < |values| && [] !in values && NoRepeats(values)
    requires OverlapsHidden(values) && Below(values, |line|) && Bare(line, values, j, k, i)
    requires z < |values| && Picked(line, values, z, l) && Earlier(z, l, j, k)
    requires |values[z]| >= |values[j]| && i < l < k + |values[j]|
    ensures Spanned(line, values, y, z, l, j, k, i)
  {
    PickedMatches(line, values, z, l);
    Edges(line, values, z, l);
    Ends(line, values);
    OnlyTheWhole(line, values, 0, l + |values[z]|, j, k, i);
    if k == 0 {
      MoreThanOverlap(line, values, j, z, l, i);
    }
    hide Picked, Gap, OverlapsHidden, Covered, Pieces;
    if Gap(line, values, k) {
      OnlyTheWhole(line, values, k, |line|, j, k, i);
    }
    var m;
    y, m := Across(line, values, k, i);
    Edges(line, values, y, m);
    OnlyTheWhole(line, values, m, |line|, j, k, i);
  }

  /** The two ends are the same for all bare bytes. */
  lemma {:induction false} SameEnds(line: Bytes, values: seq<Bytes>, y: nat, z: nat, l: nat, j: nat, k: nat, i: nat,
      y': nat, z': nat, l': nat, j': nat, k': nat, i': nat)
    requires [] !in values && NoRepeats(values)
    requires Spanned(line, values, y, z, l, j, k, i) && Spanned(line, values, y', z', l', j', k', i')
    ensures y == y' && z == z' && l == l'
  {
    PickedMatches(line, values, z, l);
    PickedMatches(line, values, z', l');
    PickedApart(line, values, y, 0, y', 0);
    PickedApart(line, values, z, l, z', l');
  }

  /** Without its last bytes the line is hidden, so some value goes before the one at the left end. */
  lemma {:induction false} RightGoesFirst(
      line: Bytes, values: seq<Bytes>, y: nat, z: nat, l: nat, j: nat, k: nat, i: nat)
    requires [] !in values && LongestFirst(values) && NoRepeats(values)
    requires OverlapsHidden(values) && Below(values, |line|)
    requires Spanned(line, values, y, z, l, j, k, i) && Bare(line, values, j, k, i)
    ensures z < y
    decreases k + |values[j]|
  {
    hide Picked, Bare, OverlapsHidden, Below, NoRepeats, CoveredFrom, Covered, Pieces;
    var e := k + |values[j]|;
    var sub := line[0..e];
    var r, m := HiddenInPart(line, values, 0, e, j, k, i);
    var y', z', l' := Spans(line, values, r, m, i);
    SameEnds(line, values, y, z, l, j, k, i, y', z', l', r, m, i);
    if m + |values[r]| < e {
      RightGoesFirst(line, values, y, z, l, r, m, i);
    } else {
      PickedMatches(line, values, y, 0);
      MatchInside(line, 0, e, values[y], 0);
      if Picked(sub, values, y, 0) {
        PickedApart(sub, values, y, 0, r, m);
      }
      var b, n := PickedOrBlocked(sub, values, y, 0);
      PickedMatches(sub, values, b, n);
      PickedApart(sub, values, b, n, r, m);
    }
  }

  /** Without its first bytes the line is hidden, so some value goes before the one at the right end. */
  lemma {:induction false} LeftGoesFirst(
      line: Bytes, values: seq<Bytes>, y: nat, z: nat, l: nat, j: nat, k: nat, i: nat)
    requires [] !in values && LongestFirst(values) && NoRepeats(values)
    requires OverlapsHidden(values) && Below(values, |line|)
    requires Spanned(line, values, y, z, l, j, k, i) && Bare(line, values, j, k, i)
    ensures y <= z
    decreases |line| - k
  {
    hide Picked, Bare, OverlapsHidden, Below, NoRepeats, CoveredFrom, Covered, Pieces;
    var sub := line[k..|line|];
    var r, m := HiddenInPart(line, values, k, |line|, j, k, i);
    var y', z', l' := Spans(line, values, r, m + k, i);
    SameEnds(line, values, y, z, l, j, k, i, y', z', l', r, m + k, i);
    if m > 0 {
      LeftGoesFirst(line, values, y, z, l, r, m + k, i);
    } else {
      PickedMatches(line, values, z, l);
      MatchInside(line, k, |line|, values[z], l - k);
      if Picked(sub, values, z, l - k) {
        PickedApart(sub, values, z, l - k, r, 0);
      }
      var b, n := PickedOrBlocked(sub, values, z, l - k);
      PickedMatches(sub, values, b, n);
      PickedApart(sub, values, b, n, r, 0);
    }
  }

  lemma {:induction false} NothingBare(line: Bytes, values: seq<Bytes>, j: nat, k: nat, i: nat)
    requires j < |values| && [] !in values && LongestFirst(values) && NoRepeats(values)
    requires OverlapsHidden(values) && Below(values, |line|)
    ensures !Bare(line, values, j, k, i)
  {
    if Bare(line, values, j, k, i) {
      var y, z, l := Spans(line, values, j, k, i);
      RightGoesFirst(line, values, y, z, l, j, k, i);
      LeftGoesFirst(line, values, y, z, l, j, k, i);
      assert false;
    }
  }

  lemma {:induction false} BelowAll(values: seq<Bytes>, n: nat)
    requires [] !in values && LongestFirst(values) && NoRepeats(values) && OverlapsHidden(values)
    ensures Below(values, n)
  {
    if n > 0 {
      BelowAll(values, n - 1);
      forall line: Bytes | |line| < n ensures Whole(Pieces(line, values), values) {
        LineIsWhole(line, values);
      }
    }
  }

  lemma {:induction false} LineIsWhole(line: Bytes, values: seq<Bytes>)
    requires [] !in values && LongestFirst(values) && NoRepeats(values) && OverlapsHidden(values)
    requires Below(values, |line|)
    ensures Whole(Pieces(line, values), values)
  {
    PiecesOf(line, values);
    var ps := Pieces(line, values);
    forall v, k: nat, i | v in values && MatchesAt(line, v, k) && k <= i < k + |v| ensures Covered(ps)[i] {
      var j :| 0 <= j < |values| && values[j] == v;
      NothingBare(line, values, j, k, i);
    }
  }

  /** Whatever the line, no part of a registered value is left of it. */
  ghost predicate AlwaysWhole(values: seq<Bytes>)
    requires [] !in values
  {
    forall line :: Whole(Pieces(line, values), values)
  }

  lemma {:induction false} AllWhole(values: seq<Bytes>)
    requires [] !in values && LongestFirst(values) && NoRepeats(values) && OverlapsHidden(values)
    ensures AlwaysWhole(values)
  {
    forall line ensures Whole(Pieces(line, values), values) {
      BelowAll(values, |line|);
      LineIsWhole(line, values);
    }
  }

  // ---- The other direction, and both together ----

  lemma {:induction false} WholeOverlapsHidden(values: seq<Bytes>)
    requires [] !in values && AlwaysWhole(values)
    ensures OverlapsHidden(values)
  {
    hide AlwaysWhole, OverlapHidden;
    forall j: nat, j': nat, n: nat | j < |values| && j' < |values| ensures OverlapHidden(values, j, j', n) {
      WholeOverlapHidden(values, j, j', n);
    }
  }

  lemma {:induction false} WholeOverlapHidden(values: seq<Bytes>, j: nat, j': nat, n: nat)
    requires [] !in values && j < |values| && j' < |values| && AlwaysWhole(values)
    ensures OverlapHidden(values, j, j', n)
  {
    var u, v := values[j], values[j'];
    if Overlap(u, v, n) {
      var line := u + v[n..];
      var ps := Pieces(line, values);
      PiecesOf(line, values);
      assert line[0..] == line && line[|u| - n..] == v;
      assert Whole(ps, values) && MatchesAt(line, u, 0) && MatchesAt(line, v, |u| - n);
      assert CoveredFrom(ps, 0, |u|) && CoveredFrom(ps, |u| - n, |v|);
      AllCoveredAllHidden(ps);
    }
  }

  /**
   No tails, exactly: masking hides every byte of every occurrence of every registered value in every line if and
   only if it hides all of the lines that consist of two overlapping values. There are finitely many of these, and
   none if no two values overlap.
   */
  lemma {:induction false} NoTailsExactly(values: seq<Bytes>)
    requires Registered(values) && AllRobust(values)
    ensures [] !in values && forall line :: Shown(Pieces(line, values)) == MaskWith(line, values)
    ensures AlwaysWhole(values) <==> OverlapsHidden(values)
  {
    hide AlwaysWhole, OverlapsHidden, AllRobust, Shown, Pieces, MaskWith;
    MaskExact([], values);
    forall line ensures Shown(Pieces(line, values)) == MaskWith(line, values) {
      MaskExact(line, values);
    }
    if OverlapsHidden(values) {
      AllWhole(values);
    }
    if AlwaysWhole(values) {
      WholeOverlapsHidden(values);
    }
  }
}
