/** Where paths lead once a parent piece goes up, and what the textual checks of paths guarantee about it. */
module PathWalks {
  import opened CachePath

  /** The directory a walk from `dir` ends in; the top is its own parent. */
  function Follow(dir: seq<string>, names: seq<string>): seq<string> {
    if names == [] then dir else
    var d, last := Follow(dir, names[..|names| - 1]), names[|names| - 1];
    if last != ".." then d + [last] else if d == [] then [] else d[..|d| - 1]
  }

  /** Following the path from `dir` ends at `dir` or below and never leaves it on the way. */
  ghost predicate StaysIn(dir: seq<string>, path: string) {
    forall k :: 0 <= k <= |Components(path)| ==> dir <= Follow(dir, Components(path)[..k])
  }

  /** A path without parents leads from `dir` to its own pieces below. */
  lemma {:induction false} NoParents(dir: seq<string>, names: seq<string>)
    requires ".." !in names
    ensures Follow(dir, names) == dir + names
  {
    if names == [] {
      assert dir + names == dir;
    } else {
      var n := |names| - 1;
      assert names == names[..n] + [names[n]];
      NoParents(dir, names[..n]);
      assert dir + names[..n] + [names[n]] == dir + names;
    }
  }

  /** Only a parent can lead out, and one that comes first does. */
  lemma {:induction false} NoParentsStays(dir: seq<string>, path: string)
    requires ".." !in Components(path)
    ensures StaysIn(dir, path) && Follow(dir, Components(path)) == dir + Components(path)
  {
    var names := Components(path);
    forall k | 0 <= k <= |names| ensures dir <= Follow(dir, names[..k]) {
      assert ".." !in names[..k];
      NoParents(dir, names[..k]);
    }
    assert names[..|names|] == names;
    NoParents(dir, names);
  }

  lemma {:induction false} ParentFirstLeaves(dir: seq<string>, path: string)
    requires dir != [] && Components(path) != [] && Components(path)[0] == ".."
    ensures !StaysIn(dir, path)
  {
    var names := Components(path);
    assert names[..1] == [".."] && names[..1][..0] == [];
    assert Follow(dir, names[..1]) == dir[..|dir| - 1];
  }

  /** A path whose only parent is its last piece stays in exactly if something comes before that. */
  lemma {:induction false} ParentLastStays(dir: seq<string>, path: string)
    requires dir != [] && Components(path) != []
    requires ".." !in Components(path)[..|Components(path)| - 1] && Components(path)[|Components(path)| - 1] == ".."
    ensures StaysIn(dir, path) <==> |Components(path)| > 1
  {
    var names := Components(path);
    var n := |names| - 1;
    if n == 0 {
      ParentFirstLeaves(dir, path);
    } else {
      forall k | 0 <= k <= |names| ensures dir <= Follow(dir, names[..k]) {
        if k <= n {
          assert names[..n][..k] == names[..k];
          NoParents(dir, names[..k]);
        } else {
          assert names[..k] == names && names[..k][..n] == names[..n];
          NoParents(dir, names[..n]);
          var d := dir + names[..n];
          assert Follow(dir, names) == d[..|d| - 1];
        }
      }
    }
  }

  /** Pieces a walk skips are not parents. */
  lemma {:induction false} ParentsAreWalked(pieces: seq<string>)
    ensures ".." in Walk(pieces) <==> ".." in pieces
  {
    if pieces != [] {
      ParentsAreWalked(pieces[1..]);
      assert pieces == [pieces[0]] + pieces[1..];
    }
  }

  // ---- Trimming and normalizing ----

  /** Trimming takes white space off both ends, all of it and nothing else. */
  lemma {:induction false} TrimExactly(s: string) returns (a: string, b: string)
    ensures s == a + Trim(s) + b
    ensures forall c :: c in a + b ==> IsSpace(c)
    ensures Trim(s) != "" ==> !IsSpace(Trim(s)[0]) && !IsSpace(Trim(s)[|Trim(s)| - 1])
  {
    a := TrimStartExactly(s);
    b := TrimEndExactly(TrimStart(s));
    assert s == a + (Trim(s) + b);
    assert Trim(s) != "" ==> Trim(s)[0] == TrimStart(s)[0];
  }

  lemma {:induction false} BlankExactly(s: string)
    ensures Trim(s) == "" <==> forall c :: c in s ==> c as int in WHITE_SPACE
  {
    var a, b := TrimExactly(s);
    forall c ensures IsSpace(c) <==> c as int in WHITE_SPACE {
      SpaceExactly(c);
    }
    hide IsSpace;
    if Trim(s) == "" {
      assert s == a + b;
    } else {
      assert Trim(s)[0] in s;
    }
  }

  lemma {:induction false} TrimStartExactly(s: string) returns (a: string)
    ensures s == a + TrimStart(s) && forall c :: c in a ==> IsSpace(c)
    ensures TrimStart(s) != "" ==> !IsSpace(TrimStart(s)[0])
  {
    a := "";
    if s != "" && IsSpace(s[0]) {
      var rest := TrimStartExactly(s[1..]);
      a := [s[0]] + rest;
    }
  }

  lemma {:induction false} TrimEndExactly(s: string) returns (b: string)
    ensures s == TrimEnd(s) + b && forall c :: c in b ==> IsSpace(c)
    ensures TrimEnd(s) != "" ==> !IsSpace(TrimEnd(s)[|TrimEnd(s)| - 1])
  {
    b := "";
    if s != "" && IsSpace(s[|s| - 1]) {
      var rest := TrimEndExactly(s[..|s| - 1]);
      b := rest + [s[|s| - 1]];
    }
  }

  /** Normalizing takes at most one `./` off the front, and all slashes off the end unless there is nothing else. */
  lemma {:induction false} NormalizeExactly(path: string) returns (lead: string, core: string, tail: string)
    ensures Trim(path) == lead + core + tail
    ensures lead == "./" || (lead == "" && !("./" <= Trim(path)))
    ensures (forall c :: c in tail ==> c == '/') && (core != "" ==> core[|core| - 1] != '/')
    ensures Normalize(path) == if core == "" && tail != "" then "/" else core
  {
    hide Trim, DropTrailingSlashes;
    var p := Trim(path);
    lead := if "./" <= p then "./" else "";
    var rest := p[|lead|..];
    core, tail := SlashesAtEnd(rest);
    assert p == lead + rest;
    Chained(lead, core, tail);
    assert "/" <= rest <==> rest != "" && rest[0] == '/';
  }

  lemma {:induction false} SlashesAtEnd(s: string) returns (core: string, tail: string)
    ensures core == DropTrailingSlashes(s) && s == core + tail
    ensures (forall c :: c in tail ==> c == '/') && (core != "" ==> core[|core| - 1] != '/')
  {
    core := DropTrailingSlashes(s);
    tail := s[|core|..];
  }

  lemma Chained(a: string, b: string, c: string)
    ensures a + (b + c) == a + b + c
  {
  }

  /** Code points with the Unicode property White_Space: from tab to carriage return, blanks, separators. */
  const WHITE_SPACE: set<int> :=
    {9, 10, 11, 12, 13, 32, 133, 160, 5760, 8192, 8193, 8194, 8195, 8196, 8197, 8198, 8199, 8200, 8201, 8202,
     8232, 8233, 8239, 8287, 12288}

  lemma SpaceExactly(c: char)
    ensures IsSpace(c) <==> c as int in WHITE_SPACE
  {
  }

  /** White space around a path makes no difference. */
  lemma {:induction false} BlanksMakeNoDifference(path: string, c: char)
    requires c as int in WHITE_SPACE
    ensures Normalize([c] + path) == Normalize(path) == Normalize(path + [c])
  {
    SpaceExactly(c);
    assert ([c] + path)[1..] == path;
    assert TrimStart([c] + path) == TrimStart(path);
    TrimAtEnd(path, c);
  }

  lemma {:induction false} TrimAtEnd(s: string, c: char)
    requires IsSpace(c)
    ensures Trim(s + [c]) == Trim(s)
  {
    if s != "" && IsSpace(s[0]) {
      assert (s + [c])[1..] == s[1..] + [c];
      TrimAtEnd(s[1..], c);
    } else if s == "" {
      assert s + [c] == [c] && [c][1..] == "";
    } else {
      assert (s + [c])[..|s|] == s;
    }
  }

  // ---- What the check of cache paths accepts ----

  /** Written without detours, or as one of the texts that are none of the caches' business. */
  predicate Plain(norm: string) {
    Tidy(norm) || norm == "" || norm == "." || norm == "/"
  }

  /**
   For plain texts the check of cache paths is exact: it refuses those with a colon, those with a parent in them,
   those that lead to the workspace or above it, and absolute ones that lead inside.
   */
  lemma {:induction false} BadPathExactly(norm: string)
    requires Plain(norm)
    ensures BadPath(norm) <==>
      || ':' in norm
      || ".." in Components(norm)
      || OnTop(MountTarget(norm), WORKSPACE)
      || (IsAbsolute(norm) && OnTop(WORKSPACE, MountTarget(norm)))
  {
    hide Components, Tidy, Tidied, MountTarget;
    WorkspaceIsTidy();
    if Tidy(norm) {
      TidyAccepted(norm);
    } else {
      DetourRefused(norm);
    }
  }

  lemma {:induction false} TidyAccepted(norm: string)
    requires Tidy(norm)
    ensures norm != "" && norm != "." && norm != "/"
    ensures OnTop(MountTarget(norm), WORKSPACE) <==> norm == WORKSPACE
    ensures IsAbsolute(norm) ==> (OnTop(WORKSPACE, MountTarget(norm)) <==> norm == WORKSPACE || WORKSPACE + "/" <= norm)
  {
    if norm == "" || norm == "." || norm == "/" {
      ShortPieces(norm);
    }
    hide Components, Tidied, Split, Tidy;
    TidyIsTidied(norm);
    TidiedAbove(MountTarget(norm));
    TidiedInside(MountTarget(norm));
    WorkspaceIsTidy();
  }

  lemma {:induction false} ShortPieces(norm: string)
    requires norm == "" || norm == "." || norm == "/"
    ensures !Tidy(norm) && Components(norm) == []
  {
    if norm == "/" {
      PlainTop();
      assert ["", ""][1..] == [""] && [""][1..] == [];
      assert Walk(["", ""]) == Walk([""]);
      assert Walk([""]) == Walk([]);
    } else {
      PlainPiece(norm);
      assert [norm][1..] == [];
      assert Walk([norm]) == Walk([]);
    }
  }

  lemma {:induction false} DetourRefused(norm: string)
    requires norm == "" || norm == "." || norm == "/"
    ensures BadPath(norm) && OnTop(MountTarget(norm), WORKSPACE)
  {
    ShortPieces(norm);
    WorkspaceIsTidy();
    hide Split, Walk, Tidy;
    if norm != "/" {
      ComponentsOfRelative(norm);
    }
  }
}
