/** Cache paths as declared in a pipeline file, and the mount targets they become. */
module CachePath {
  /** A cache as declared: its name and its path. */
  datatype Cache = Cache(name: string, path: string)

  /** The characters `str::trim` removes: Unicode White_Space. */
  predicate IsSpace(c: char) {
    || '\t' <= c <= '\r' || c == ' '
    || c as int in {0x85, 0xA0, 0x1680, 0x2028, 0x2029, 0x202F, 0x205F, 0x3000}
    || 0x2000 <= c as int <= 0x200A
  }

  function TrimStart(s: string): string {
    if s != "" && IsSpace(s[0]) then TrimStart(s[1..]) else s
  }

  function TrimEnd(s: string): string {
    if s != "" && IsSpace(s[|s| - 1]) then TrimEnd(s[..|s| - 1]) else s
  }

  function Trim(s: string): string {
    TrimEnd(TrimStart(s))
  }

  function DropTrailingSlashes(s: string): (r: string)
    ensures r <= s
    ensures r == "" || r[|r| - 1] != '/'
    ensures forall i :: |r| <= i < |s| ==> s[i] == '/'
  {
    if s != "" && s[|s| - 1] == '/' then DropTrailingSlashes(s[..|s| - 1]) else s
  }

  /** One leading `./` and all trailing `/` removed. */
  function Normalize(path: string): string {
    var p := Trim(path);
    var p := if "./" <= p then p[2..] else p;
    var trimmed := DropTrailingSlashes(p);
    if trimmed == "" && "/" <= p then "/" else trimmed
  }

  predicate IsAbsolute(path: string) {
    "/" <= path
  }

  /** The pieces of `s` between slashes. */
  function Split(s: string): (r: seq<string>)
    ensures |r| >= 1
  {
    if s == "" then [""] else Extend(s[0], Split(s[1..]))
  }

  /** The pieces once `c` is put in front. */
  function Extend(c: char, pieces: seq<string>): (r: seq<string>)
    requires |pieces| >= 1
    ensures |r| >= 1
  {
    if c == '/' then [""] + pieces else [[c] + pieces[0]] + pieces[1..]
  }

  /** The names a path walks through: `std::path::Path` skips empty and `.` pieces. */
  function Walk(pieces: seq<string>): (r: seq<string>)
    ensures forall i :: 0 <= i < |r| ==> r[i] != "" && r[i] != "." && r[i] in pieces
  {
    if pieces == [] then []
    else if pieces[0] == "" || pieces[0] == "." then Walk(pieces[1..])
    else [pieces[0]] + Walk(pieces[1..])
  }

  function Components(path: string): seq<string> {
    Walk(Split(path))
  }

  const WORKSPACE: string := "/workspace"

  /** What `validate_cache` refuses about a normalized path. */
  predicate BadPath(norm: string) {
    || norm == "" || norm == "." || norm == "/" || norm == WORKSPACE
    || WORKSPACE + "/" <= norm
    || ':' in norm
    || ".." in Components(norm)
  }

  /** Where the executor mounts a cache inside the jail. */
  function MountTarget(norm: string): string {
    if IsAbsolute(norm) then norm else WORKSPACE + "/" + norm
  }

  /** Accepted, distinct normalized paths give distinct targets, and none is written like the workspace mount. */
  lemma MountTargetsDistinct(a: string, b: string)
    requires !BadPath(a) && !BadPath(b)
    ensures MountTarget(a) == MountTarget(b) <==> a == b
    ensures MountTarget(a) != WORKSPACE
    ensures IsAbsolute(a) && !IsAbsolute(b) ==> MountTarget(a) != MountTarget(b)
  {
    // A relative target starts with "/workspace/"; an absolute path that does is refused.
    var w := WORKSPACE + "/";
    assert !IsAbsolute(a) ==> w <= MountTarget(a) && MountTarget(a)[|w|..] == a;
    assert !IsAbsolute(b) ==> w <= MountTarget(b) && MountTarget(b)[|w|..] == b;
  }

  // ---- Targets as directories ----

  /** No empty and no `.` piece, apart from the empty one before a leading slash. */
  predicate Tidy(norm: string) {
    var pieces := Split(norm);
    var body := if IsAbsolute(norm) then pieces[1..] else pieces;
    "" !in body && "." !in body
  }

  function Join(pieces: seq<string>): string
    requires |pieces| >= 1
  {
    if |pieces| == 1 then pieces[0] else pieces[0] + "/" + Join(pieces[1..])
  }

  lemma {:induction false} JoinSplit(s: string)
    ensures Join(Split(s)) == s
  {
    if s != "" {
      JoinSplit(s[1..]);
      JoinExtend(s[0], Split(s[1..]));
    }
  }

  lemma {:induction false} JoinExtend(c: char, pieces: seq<string>)
    requires |pieces| >= 1
    ensures Join(Extend(c, pieces)) == [c] + Join(pieces)
  {
  }

  lemma ExtendConcat(c: char, p: seq<string>, q: seq<string>)
    requires |p| >= 1
    ensures Extend(c, p + q) == Extend(c, p) + q
  {
  }

  lemma {:induction false} WalkTidy(pieces: seq<string>)
    requires "" !in pieces && "." !in pieces
    ensures Walk(pieces) == pieces
  {
    if pieces != [] {
      WalkTidy(pieces[1..]);
    }
  }

  lemma {:induction false} SplitAtSlash(a: string, b: string)
    ensures Split(a + "/" + b) == Split(a) + Split(b)
  {
    var s := a + "/" + b;
    if a == "" {
      assert s == "/" + b && s[1..] == b;
    } else {
      assert s[1..] == a[1..] + "/" + b;
      SplitAtSlash(a[1..], b);
      ExtendConcat(a[0], Split(a[1..]), Split(b));
    }
  }

  /** Components of a tidy target, and the normalized path they come back to. */
  lemma {:induction false} TidyTarget(norm: string)
    requires Tidy(norm)
    ensures Components(MountTarget(norm)) ==
            (if IsAbsolute(norm) then Split(norm)[1..] else ["workspace"] + Split(norm))
  {
    if IsAbsolute(norm) {
      assert norm == "" + "/" + norm[1..];
      SplitAtSlash("", norm[1..]);
      assert Split("") == [""];
      WalkTidy(Split(norm)[1..]);
    } else {
      SplitAtSlash(WORKSPACE, norm);
      WorkspacePieces();
      WalkWorkspace(Split(norm));
      WalkTidy(Split(norm));
    }
  }

  lemma {:induction false} WalkWorkspace(rest: seq<string>)
    ensures Walk(["", "workspace"] + rest) == ["workspace"] + Walk(rest)
  {
  }

  lemma WorkspacePieces()
    ensures Split(WORKSPACE) == ["", "workspace"]
  {
    var w := "workspace";
    PlainPiece(w);
    assert WORKSPACE[0] == '/' && WORKSPACE[1..] == w;
  }

  lemma {:induction false} PlainPiece(s: string)
    requires '/' !in s
    ensures Split(s) == [s]
  {
    if s != "" {
      PlainPiece(s[1..]);
      assert [s[0]] + s[1..] == s;
    }
  }

  /** A target without detours: its components, each behind one slash. */
  function Tidied(p: string): string {
    var c := Components(p);
    if c == [] then "/" else "/" + Join(c)
  }

  lemma {:induction false} SplitHasNoSlash(s: string)
    ensures forall i :: 0 <= i < |Split(s)| ==> '/' !in Split(s)[i]
  {
    if s != "" {
      SplitHasNoSlash(s[1..]);
    }
  }

  lemma {:induction false} SplitJoin(pieces: seq<string>)
    requires |pieces| >= 1 && forall i :: 0 <= i < |pieces| ==> '/' !in pieces[i]
    ensures Split(Join(pieces)) == pieces
  {
    PlainPiece(pieces[0]);
    if |pieces| > 1 {
      SplitJoin(pieces[1..]);
      SplitAtSlash(pieces[0], Join(pieces[1..]));
    } else {
      assert pieces == [pieces[0]];
    }
  }

  lemma {:induction false} SplitTidied(p: string)
    ensures Split(Tidied(p)) == if Components(p) == [] then ["", ""] else [""] + Components(p)
  {
    var c, none := Components(p), "";
    SplitHasNoSlash(p);
    if c != [] {
      SplitJoin(c);
      SplitAtSlash(none, Join(c));
      assert none + "/" + Join(c) == Tidied(p);
    } else {
      SplitAtSlash(none, none);
      assert none + "/" + none == "/";
    }
  }

  /** Two paths lead to one directory exactly when they are the same once tidied. */
  lemma {:induction false} TidiedTells(p: string, q: string)
    ensures Components(p) == Components(q) <==> Tidied(p) == Tidied(q)
  {
    SplitTidied(p);
    SplitTidied(q);
    if Tidied(p) == Tidied(q) {
      assert Components(p) != [] ==> Split(Tidied(p))[1..] == Components(p) && Split(Tidied(p))[1] != "";
      assert Components(q) != [] ==> Split(Tidied(q))[1..] == Components(q) && Split(Tidied(q))[1] != "";
    }
  }

  /** What is mounted at `p` lies on top of `q`: it is the same directory, or one above. */
  predicate OnTop(p: string, q: string) {
    Components(p) <= Components(q)
  }

  /** The same, as the validator would look for it. */
  predicate SeenOnTop(p: string, q: string) {
    Tidied(p) == "/" || Tidied(p) == Tidied(q) || Tidied(p) + "/" <= Tidied(q)
  }

  /** One path leads to where another does, or above, exactly when the tidied texts say so. */
  lemma {:induction false} OnTopExactly(p: string, q: string)
    ensures OnTop(p, q) <==> SeenOnTop(p, q)
  {
    hide Components, Split, Join;
    var c, d := Components(p), Components(q);
    SplitTidied(p);
    SplitTidied(q);
    TidiedTells(p, q);
    TidiedAbsolute(p);
    PlainTop();
    if c != [] && d != [] {
      if c <= d && c != d {
        assert d == c + d[|c|..];
        JoinConcat(c, d[|c|..]);
      }
      if Tidied(p) + "/" <= Tidied(q) {
        SplitAbove(c, d, Tidied(p), Tidied(q));
      }
    }
  }

  lemma TidiedAbsolute(p: string)
    ensures Tidied(p) != "" && (Tidied(p) == "/" <==> Components(p) == [])
  {
    SplitTidied(p);
    PlainTop();
    hide Split;
    assert Components(p) != [] ==> Components(p)[0] != "";
  }

  lemma {:induction false} JoinConcat(c: seq<string>, e: seq<string>)
    requires c != [] && e != []
    ensures "/" + Join(c + e) == ("/" + Join(c)) + "/" + Join(e)
  {
    if |c| > 1 {
      JoinConcat(c[1..], e);
      assert (c + e)[1..] == c[1..] + e;
      assert "/" + Join(c + e) == "/" + c[0] + ("/" + Join(c[1..] + e));
      assert "/" + Join(c) == "/" + c[0] + ("/" + Join(c[1..]));
    } else {
      assert (c + e)[1..] == e;
    }
  }

  lemma {:induction false} SplitAbove(c: seq<string>, d: seq<string>, t: string, u: string)
    requires Split(t) == [""] + c && Split(u) == [""] + d && t + "/" <= u
    ensures c <= d
  {
    var rest := u[|t| + 1..];
    assert t + "/" + rest == u;
    SplitAtSlash(t, rest);
    assert [""] + d == [""] + (c + Split(rest));
    assert ([""] + d)[1..] == d && ([""] + (c + Split(rest)))[1..] == c + Split(rest);
  }

  lemma {:induction false} SplitTop(w: string)
    requires '/' !in w
    ensures Split("/" + w) == ["", w]
  {
    var none := "";
    PlainPiece(w);
    PlainPiece(none);
    SplitAtSlash(none, w);
    assert none + "/" + w == "/" + w;
  }

  lemma {:induction false} WorkspaceIsTidy()
    ensures Components(WORKSPACE) == ["workspace"] && Tidied(WORKSPACE) == WORKSPACE
  {
    hide Components, Tidied;
    var w := "workspace";
    WorkspaceIs(w);
    TopIsTidy(w);
  }

  lemma {:induction false} TopIsTidy(w: string)
    requires '/' !in w && w != "" && w != "."
    ensures Components("/" + w) == [w] && Tidied("/" + w) == "/" + w
  {
    SplitTop(w);
    assert ["", w][1..] == [w] && [w][1..] == [];
    assert Walk([w]) == [w] + Walk([]);
  }

  /** A path leads to the workspace, or into it, exactly when the validator's test sees that in the tidied path. */
  lemma {:induction false} TidiedInside(p: string)
    ensures ["workspace"] <= Components(p) <==> Tidied(p) == WORKSPACE || WORKSPACE + "/" <= Tidied(p)
    ensures Components(p) == ["workspace"] <==> Tidied(p) == WORKSPACE
  {
    WorkspaceIsTidy();
    OnTopExactly(WORKSPACE, p);
    TidiedTells(p, WORKSPACE);
    hide Components, Tidied;
  }

  /** A path leads to the workspace, or above it, exactly when it is one of two texts once tidied. */
  lemma {:induction false} TidiedAbove(p: string)
    ensures OnTop(p, WORKSPACE) <==> Tidied(p) == "/" || Tidied(p) == WORKSPACE
    ensures Components(p) == [] <==> Tidied(p) == "/"
  {
    WorkspaceIsTidy();
    TidiedTells(p, WORKSPACE);
    TidiedAbsolute(p);
    assert Components(p) <= ["workspace"] <==> Components(p) == [] || Components(p) == ["workspace"];
    hide Components, Split;
  }

  lemma {:induction false} PlainTop()
    ensures Split("/") == ["", ""]
  {
    var none := "";
    SplitAtSlash(none, none);
    assert none + "/" + none == "/";
  }

  /** Tidy paths are mounted where they say. */
  lemma {:induction false} TidyIsTidied(norm: string)
    requires Tidy(norm)
    ensures Tidied(MountTarget(norm)) == MountTarget(norm)
  {
    TidyTarget(norm);
    JoinSplit(norm);
    if IsAbsolute(norm) {
      AbsoluteHead(norm);
      assert Join(Split(norm)) == "" + "/" + Join(Split(norm)[1..]);
    } else {
      var w := Components(MountTarget(norm))[0];
      WorkspaceIs(w);
      JoinFirst(w, Split(norm));
      Slashed(w, norm);
    }
  }

  lemma WorkspaceIs(w: string)
    requires w == "workspace"
    ensures WORKSPACE == "/" + w
  {
  }

  lemma Slashed(w: string, rest: string)
    ensures "/" + (w + "/" + rest) == "/" + w + "/" + rest
  {
  }

  lemma {:induction false} JoinFirst(w: string, pieces: seq<string>)
    requires |pieces| >= 1
    ensures Join([w] + pieces) == w + "/" + Join(pieces)
  {
    assert ([w] + pieces)[1..] == pieces;
  }

  lemma {:induction false} AbsoluteHead(a: string)
    requires IsAbsolute(a)
    ensures |Split(a)| >= 2 && Split(a)[0] == ""
  {
  }

  /**
   So accepted tidy paths name different directories unless they are the same path, never the workspace
   itself, and an absolute one is never inside the workspace.
   */
  lemma {:induction false} TidyTargetsAreDistinctDirectories(a: string, b: string)
    requires !BadPath(a) && !BadPath(b) && Tidy(a) && Tidy(b)
    ensures Components(MountTarget(a)) == Components(MountTarget(b)) <==> a == b
    ensures ["workspace"] <= Components(MountTarget(a)) <==> !IsAbsolute(a)
    ensures Components(MountTarget(a)) != ["workspace"]
  {
    TidyIsTidied(a);
    TidyIsTidied(b);
    TidiedTells(MountTarget(a), MountTarget(b));
    TidiedInside(MountTarget(a));
    MountTargetsDistinct(a, b);
    assert !IsAbsolute(a) ==> WORKSPACE + "/" <= MountTarget(a);
  }

  /** Accepted all the same: the workspace itself, written with two slashes. */
  lemma {:induction false} WorkspaceCovered(p: string)
    requires p == "//workspace"
    ensures Normalize(p) == p && !BadPath(p) && Tidied(MountTarget(p)) == WORKSPACE
  {
    hide Normalize, Components;
    var w := p[2..];
    assert w == "workspace" && p == "/" + ("/" + w);
    WorkspaceIs(w);
    DoubledTop(w);
    NormalizeTight(p);
  }

  lemma {:induction false} DoubledTop(w: string)
    requires '/' !in w && ':' !in w && w != "" && w != "." && w != ".."
    ensures var p := "/" + ("/" + w); !BadPath(p) && MountTarget(p) == p && Tidied(p) == "/" + w
  {
    var p := "/" + ("/" + w);
    ExtraSlash("/" + w);
    TopIsTidy(w);
    assert p[1] == '/' && (WORKSPACE + "/")[1] == 'w' && WORKSPACE[1] == 'w';
  }

  /** And the directory above the workspace, with all that is in it: the root, written with a dot. */
  lemma {:induction false} RootCovered(p: string)
    requires p == "/."
    ensures Normalize(p) == p && !BadPath(p) && Tidied(MountTarget(p)) == "/" && OnTop(MountTarget(p), WORKSPACE)
  {
    hide Components, Normalize, Tidied;
    var dot := ".";
    assert |p| == 2 && p[0] == '/' && p[1] == '.';
    assert p == "/" + dot;
    NormalizeTight(p);
    OnlyDots(dot);
    TidiedAbove(p);
    ShortIsAccepted(p);
  }

  lemma ShortIsAccepted(p: string)
    requires |p| == 2 && p[0] == '/' && p[1] == '.' && Components(p) == []
    ensures !BadPath(p)
  {
    hide Components;
    assert |WORKSPACE| > 2;
  }

  lemma {:induction false} OnlyDots(dot: string)
    requires dot == "."
    ensures Components("/" + dot) == []
  {
    SplitTop(dot);
    assert ["", dot][1..] == [dot] && [dot][1..] == [];
    assert Walk([dot]) == Walk([]);
  }

  /** And as a relative path. */
  lemma {:induction false} WorkspaceCoveredByDots(p: string)
    requires p == "./."
    ensures Normalize("./" + p) == p && !BadPath(p) && Tidied(MountTarget(p)) == WORKSPACE
  {
    var dot := ".";
    NormalizeDotted(p);
    DotsLead(dot);
    assert p == "./" + dot && p[0] == '.' && p[1] == '/';
    ComponentsOfRelative(p);
    TidiedInside(MountTarget(p));
  }

  lemma {:induction false} DotsLead(dot: string)
    requires dot == "."
    ensures Components("./" + dot) == []
  {
    ExtraDot(dot);
    PlainPiece(dot);
    assert [dot][1..] == [];
    assert Walk([dot]) == Walk([]);
  }

  lemma {:induction false} NormalizeTight(p: string)
    requires p != "" && !IsSpace(p[0]) && !IsSpace(p[|p| - 1]) && p[|p| - 1] != '/' && p[0] != '.'
    ensures Normalize(p) == p
  {
  }

  lemma {:induction false} NormalizeDotted(p: string)
    requires p != "" && !IsSpace(p[|p| - 1]) && p[|p| - 1] != '/'
    ensures Normalize("./" + p) == p
  {
    var q := "./" + p;
    assert q[0] == '.' && q[|q| - 1] == p[|p| - 1] && q[2..] == p;
    assert Trim(q) == q;
  }

  lemma ComponentsOfRelative(x: string)
    requires !IsAbsolute(x)
    ensures Components(MountTarget(x)) == ["workspace"] + Components(x)
  {
    SplitAtSlash(WORKSPACE, x);
    WorkspacePieces();
    WalkWorkspace(Split(x));
  }

  /** A further leading slash changes the text of a path and not where it leads. */
  lemma ExtraSlash(q: string)
    ensures Components("/" + q) == Components(q)
  {
  }

  /** So does a leading `./`. */
  lemma ExtraDot(q: string)
    ensures Components("./" + q) == Components(q)
  {
    var dot := ".";
    PlainPiece(dot);
    SplitAtSlash(dot, q);
    assert dot + "/" + q == "./" + q;
    assert ([dot] + Split(q))[1..] == Split(q);
  }

  /**
   Only one leading `./` is stripped: whatever path is accepted as the relative `x`, some path is accepted as
   the different `./x` and mounted on the same directory.
   */
  lemma UntidyPathsCollide(path: string)
    requires !BadPath(Normalize(path)) && !IsAbsolute(Normalize(path))
    ensures var x := Normalize(path);
      && Normalize("././" + x + "/") == "./" + x != x && !BadPath("./" + x)
      && Components(MountTarget("./" + x)) == Components(MountTarget(x))
  {
    var x := Normalize(path);
    NormalizeTwice(x);
    DotKeepsAccepted(x);
    ExtraDot(x);
    ComponentsOfRelative("./" + x);
    ComponentsOfRelative(x);
  }

  lemma NormalizeTwice(x: string)
    requires x != "" && x[|x| - 1] != '/'
    ensures Normalize("././" + x + "/") == "./" + x != x
  {
    var p, q := "././" + x + "/", "./" + x;
    assert p[0] == '.' && p[|p| - 1] == '/' && Trim(p) == p;
    assert p[2..] == q + "/" && (q + "/")[..|q|] == q;
    assert q[|q| - 1] == x[|x| - 1];
    assert DropTrailingSlashes(q + "/") == DropTrailingSlashes(q) == q;
    assert |q| == |x| + 2;
  }

  lemma DotKeepsAccepted(x: string)
    requires !BadPath(x)
    ensures !BadPath("./" + x)
  {
    ExtraDot(x);
    ColonIn("./", x);
    var q := "./" + x;
    assert q[0] == '.' && |q| > 2;
  }

  lemma ColonIn(a: string, b: string)
    ensures ':' in a + b <==> ':' in a || ':' in b
  {
  }

  /**
   The check for paths inside the workspace looks at the text: one more leading slash passes it, and
   the cache is mounted over the same directory inside the workspace as the relative `x`.
   */
  lemma DoubledSlashShadowsWorkspace(x: string)
    requires !BadPath(x) && !IsAbsolute(x)
    ensures var p := "/" + MountTarget(x);
      && IsAbsolute(p) && !BadPath(p)
      && Components(MountTarget(p)) == Components(MountTarget(x))
  {
    var q := MountTarget(x);
    ExtraSlash(q);
    ComponentsOfRelative(x);
    ColonIn(WORKSPACE + "/", x);
    ColonIn("/", q);
    SlashTwice(x);
  }

  lemma SlashTwice(x: string)
    ensures var p := "/" + (WORKSPACE + "/" + x);
      && |p| > |WORKSPACE| && p[0] == '/'
      && !(WORKSPACE + "/" <= p)
  {
    var p := "/" + (WORKSPACE + "/" + x);
    assert p[1] == '/' && WORKSPACE[1] == 'w';
    assert (WORKSPACE + "/")[1] == 'w';
  }

  /**
   A cache may lie inside another one, and comes to lie under it if it is declared first: `x/y` is accepted for
   accepted `x` and `y`, and the mount of `x` covers it.
   */
  lemma OuterCoversInner(x: string, y: string)
    requires !BadPath(x) && !BadPath(y) && !IsAbsolute(y)
    ensures !BadPath(x + "/" + y) && OnTop(MountTarget(x), MountTarget(x + "/" + y))
  {
    InnerIsAccepted(x, y);
    InnerTarget(x, y);
    InnerComponents(MountTarget(x), y);
    hide BadPath, Components, MountTarget;
  }

  lemma InnerIsAccepted(x: string, y: string)
    requires !BadPath(x) && !BadPath(y) && !IsAbsolute(y)
    ensures !BadPath(x + "/" + y)
  {
    hide Components;
    var z := x + "/" + y;
    InnerComponents(x, y);
    ColonIn(x + "/", y);
    ColonIn(x, "/");
    assert |z| > |x| + 1 && z[|x|] == '/';
    if WORKSPACE <= z {
      SlashAfterWorkspace(x, y);
    }
  }

  lemma InnerTarget(x: string, y: string)
    requires x != ""
    ensures MountTarget(x + "/" + y) == MountTarget(x) + "/" + y
  {
    assert (x + "/" + y)[0] == x[0];
    assert WORKSPACE + "/" + (x + "/" + y) == (WORKSPACE + "/" + x) + "/" + y;
  }

  lemma InnerComponents(x: string, y: string)
    ensures Components(x + "/" + y) == Components(x) + Components(y)
  {
    SplitAtSlash(x, y);
    WalkConcat(Split(x), Split(y));
  }

  lemma {:induction false} WalkConcat(a: seq<string>, b: seq<string>)
    ensures Walk(a + b) == Walk(a) + Walk(b)
  {
    if a == [] {
      assert a + b == b;
    } else {
      WalkConcat(a[1..], b);
      Behead(a, b);
      Joined([a[0]], Walk(a[1..]), Walk(b));
    }
  }

  lemma Behead(a: seq<string>, b: seq<string>)
    requires a != []
    ensures (a + b)[1..] == a[1..] + b && (a + b)[0] == a[0]
  {
  }

  lemma Joined(a: seq<string>, b: seq<string>, c: seq<string>)
    ensures a + (b + c) == a + b + c
  {
  }

  /** No further piece brings a path below the workspace. */
  lemma SlashAfterWorkspace(x: string, y: string)
    requires x != "" && WORKSPACE <= x + "/" + y
    ensures WORKSPACE <= x && (WORKSPACE + "/" <= x + "/" + y ==> x == WORKSPACE || WORKSPACE + "/" <= x)
  {
    var z := x + "/" + y;
    if |x| < |WORKSPACE| {
      assert z[|x|] == '/' && WORKSPACE[|x|] == '/';
      SoleSlash(|x|);
    }
    assert x == z[..|x|];
  }

  lemma SoleSlash(i: nat)
    requires i < |WORKSPACE| && WORKSPACE[i] == '/'
    ensures i == 0
  {
  }
}
