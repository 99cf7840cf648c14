/** Go's path.Clean and path.Join as a stack machine over segments. */
module Paths {
  import opened Text

  // A segment that cleaning leaves alone.
  predicate Plain(seg: string)
  {
    seg != "" && seg != "." && seg != ".." && '/' !in seg
  }

  predicate AllPlain(segs: seq<string>) { forall s :: s in segs ==> Plain(s) }

  predicate Rooted(p: string) { p != "" && p[0] == '/' }

  // One segment of path.Clean: drop "" and ".", let ".." pop a real segment,
  // drop a ".." above the root, keep a ".." a relative path cannot resolve.
  function Push(rooted: bool, out: seq<string>, seg: string): seq<string>
  {
    if seg == "" || seg == "." then out
    else if seg == ".." then
      if |out| > 0 && out[|out| - 1] != ".." then out[..|out| - 1]
      else if rooted then out
      else out + [".."]
    else out + [seg]
  }

  function Fold(rooted: bool, out: seq<string>, segs: seq<string>): seq<string>
    decreases |segs|
  {
    if segs == [] then out else Fold(rooted, Push(rooted, out, segs[0]), segs[1..])
  }

  function Render(rooted: bool, segs: seq<string>): string
  {
    if rooted then "/" + Join(segs, '/')
    else if segs == [] then "."
    else Join(segs, '/')
  }

  function CleanSegs(p: string): seq<string>
  {
    Fold(Rooted(p), [], Split(p, '/'))
  }

  // path.Clean
  function Clean(p: string): string
  {
    if p == "" then "." else Render(Rooted(p), CleanSegs(p))
  }

  function DropEmpty(elems: seq<string>): seq<string>
  {
    if elems == [] then [] else if elems[0] == "" then DropEmpty(elems[1..]) else elems
  }

  // path.Join: leading empty elements vanish, the rest are joined and cleaned.
  function PathJoin(elems: seq<string>): string
  {
    var rest := DropEmpty(elems);
    if rest == [] then "" else Clean(Join(rest, '/'))
  }

  // What cleaning can leave: climbing segments first (none when rooted), then
  // plain ones.
  predicate Cleaned(rooted: bool, segs: seq<string>)
  {
    && (forall s :: s in segs ==> Plain(s) || (s == ".." && !rooted))
    && (forall i, j :: 0 <= i < j < |segs| && segs[j] == ".." ==> segs[i] == "..")
  }

  lemma PushCleaned(rooted: bool, out: seq<string>, seg: string)
    requires Cleaned(rooted, out) && '/' !in seg
    ensures Cleaned(rooted, Push(rooted, out, seg))
  {
    var next := Push(rooted, out, seg);
    if seg == ".." && (|out| == 0 || out[|out| - 1] == "..") && !rooted {
      assert next == out + [".."];
    }
  }

  lemma {:induction false} FoldCleaned(rooted: bool, out: seq<string>, segs: seq<string>)
    requires Cleaned(rooted, out)
    requires forall s :: s in segs ==> '/' !in s
    ensures Cleaned(rooted, Fold(rooted, out, segs))
    decreases |segs|
  {
    if segs != [] {
      PushCleaned(rooted, out, segs[0]);
      FoldCleaned(rooted, Push(rooted, out, segs[0]), segs[1..]);
    }
  }

  lemma {:induction false} FoldConcat(rooted: bool, out: seq<string>, a: seq<string>, b: seq<string>)
    ensures Fold(rooted, out, a + b) == Fold(rooted, Fold(rooted, out, a), b)
    decreases |a|
  {
    if a == [] {
      assert a + b == b;
    } else {
      assert (a + b)[1..] == a[1..] + b;
      FoldConcat(rooted, Push(rooted, out, a[0]), a[1..], b);
    }
  }

  lemma {:induction false} FoldPlain(rooted: bool, out: seq<string>, segs: seq<string>)
    requires AllPlain(segs)
    ensures Fold(rooted, out, segs) == out + segs
    decreases |segs|
  {
    if segs != [] {
      assert segs[0] in segs && Push(rooted, out, segs[0]) == out + [segs[0]];
      FoldPlain(rooted, out + [segs[0]], segs[1..]);
      assert out + [segs[0]] + segs[1..] == out + segs;
    }
  }

  lemma CleanSegsCleaned(p: string)
    ensures Cleaned(Rooted(p), CleanSegs(p))
  {
    FoldCleaned(Rooted(p), [], Split(p, '/'));
  }

  // What a path means: the directory, as the list of names below the root, that
  // a walk along its segments reaches. ".." at the root stays there.
  function Walk(dir: seq<string>, segs: seq<string>): seq<string>
    decreases |segs|
  {
    if segs == [] then dir
    else
      var d := Walk(dir, segs[..|segs| - 1]);
      var seg := segs[|segs| - 1];
      if seg == "" || seg == "." then d
      else if seg == ".." then (if d == [] then [] else d[..|d| - 1])
      else d + [seg]
  }

  lemma PushKeepsWalk(dir: seq<string>, rooted: bool, out: seq<string>, seg: string)
    requires Cleaned(rooted, out) && (rooted ==> dir == [])
    ensures Walk(dir, Push(rooted, out, seg)) == Walk(dir, out + [seg])
  {
    assert (out + [seg])[..|out|] == out;
    if seg == ".." && |out| > 0 {
      assert out[|out| - 1] in out;
      if out[|out| - 1] != ".." {
        assert Walk(dir, out) == Walk(dir, out[..|out| - 1]) + [out[|out| - 1]];
      }
    }
  }

  lemma {:induction false} WalkConcat(dir: seq<string>, a: seq<string>, b: seq<string>)
    ensures Walk(dir, a + b) == Walk(Walk(dir, a), b)
    decreases |b|
  {
    if b == [] {
      assert a + b == a;
    } else {
      assert (a + b)[..|a + b| - 1] == a + b[..|b| - 1];
      WalkConcat(dir, a, b[..|b| - 1]);
    }
  }

  lemma {:induction false} FoldKeepsWalk(dir: seq<string>, rooted: bool, out: seq<string>, segs: seq<string>)
    requires Cleaned(rooted, out) && (rooted ==> dir == []) && forall s :: s in segs ==> '/' !in s
    ensures Walk(dir, Fold(rooted, out, segs)) == Walk(dir, out + segs)
    decreases |segs|
  {
    if segs == [] {
      assert out + segs == out;
    } else {
      var next := Push(rooted, out, segs[0]);
      PushCleaned(rooted, out, segs[0]);
      PushKeepsWalk(dir, rooted, out, segs[0]);
      FoldKeepsWalk(dir, rooted, next, segs[1..]);
      WalkConcat(dir, next, segs[1..]);
      WalkConcat(dir, out + [segs[0]], segs[1..]);
      assert out + [segs[0]] + segs[1..] == out + segs;
    }
  }

  // Cleaning preserves meaning: from any directory, the cleaned segments lead
  // where the path led; absolute paths start at the root.
  lemma CleanKeepsMeaning(p: string, dir: seq<string>)
    ensures var start := if Rooted(p) then [] else dir;
            Walk(start, CleanSegs(p)) == Walk(start, Split(p, '/'))
  {
    var start := if Rooted(p) then [] else dir;
    FoldKeepsWalk(start, Rooted(p), [], Split(p, '/'));
    assert [] + Split(p, '/') == Split(p, '/');
  }

  // Rendering loses nothing.
  lemma RenderInjective(r1: bool, a: seq<string>, r2: bool, b: seq<string>)
    requires Cleaned(r1, a) && Cleaned(r2, b)
    requires a != [] && b != []
    requires Render(r1, a) == Render(r2, b)
    ensures r1 == r2 && a == b
  {
    assert a[0] in a && b[0] in b;
    JoinHead(a);
    JoinHead(b);
    assert Join(a, '/') == Join(b, '/') by {
      if r1 { assert Render(r1, a)[1..] == Join(a, '/'); }
      if r2 { assert Render(r2, b)[1..] == Join(b, '/'); }
    }
    JoinInjective(a, b, '/');
  }

  lemma JoinHead(segs: seq<string>)
    requires segs != [] && segs[0] != "" && '/' !in segs[0]
    ensures Join(segs, '/') != "" && Join(segs, '/')[0] == segs[0][0] != '/'
  {
  }

  lemma {:induction false} FoldFixed(rooted: bool, out: seq<string>, segs: seq<string>)
    requires Cleaned(rooted, out + segs)
    ensures Fold(rooted, out, segs) == out + segs
    decreases |segs|
  {
    if segs == [] {
      assert out + segs == out;
    } else {
      assert (out + segs)[|out|] == segs[0] && segs[0] in out + segs;
      assert forall i :: 0 <= i < |out| ==> (out + segs)[i] == out[i];
      assert (out + [segs[0]]) + segs[1..] == out + segs;
      FoldFixed(rooted, out + [segs[0]], segs[1..]);
    }
  }

  // Cleaning is done after one pass, and never gives the empty path: what cleans
  // to nothing is "." or the root.
  lemma CleanIdempotent(p: string)
    ensures Clean(Clean(p)) == Clean(p) != ""
    ensures CleanSegs(p) == [] ==> Clean(p) == if Rooted(p) then "/" else "."
  {
    var rooted, segs := Rooted(p), CleanSegs(p);
    CleanSegsCleaned(p);
    if p == "" || segs == [] {
      ShortestPaths();
    } else {
      var c := Render(rooted, segs);
      assert segs[0] in segs;
      JoinHead(segs);
      SplitOfJoin(segs, '/');
      assert rooted ==> c[1..] == Join(segs, '/');
      assert Split(c, '/') == if rooted then [""] + segs else segs;
      assert ([""] + segs)[1..] == segs;
      assert [] + segs == segs;
      FoldFixed(rooted, [], segs);
      assert Fold(rooted, [], [""] + segs) == Fold(rooted, [], segs);
      assert Rooted(c) == rooted && CleanSegs(c) == segs;
    }
  }

  lemma ShortestPaths()
    ensures CleanSegs("") == CleanSegs(".") == CleanSegs("/") == []
    ensures Clean("") == Clean(".") == "." && Clean("/") == "/"
  {
    assert Split("", '/') == [""] && Fold(false, [], [""]) == Fold(false, [], []);
    SplitSingle(".", '/');
    assert Fold(false, [], ["."]) == Fold(false, [], []);
    assert "/"[1..] == "" && Split("/", '/') == ["", ""];
    assert ["", ""][1..] == [""] && [""][1..] == [];
    assert Fold(true, [], ["", ""]) == Fold(true, [], [""]) == Fold(true, [], []);
    assert "/" + Join([], '/') == "/";
  }

  // Cleaning never eats the trailing segments: joining a prefix with plain
  // segments appends exactly those to the cleaned prefix, whatever the prefix.
  lemma JoinKeepsTail(prefix: string, tail: seq<string>)
    requires tail != [] && AllPlain(tail)
    ensures PathJoin([prefix] + tail) == Render(Rooted(prefix), CleanSegs(prefix) + tail)
  {
    var joined := Join(tail, '/');
    assert tail[0] in tail;
    JoinHead(tail);
    if prefix == "" {
      assert ([prefix] + tail)[1..] == tail;
      assert DropEmpty([prefix] + tail) == tail;
      SplitOfJoin(tail, '/');
      FoldPlain(false, [], tail);
      assert CleanSegs("") == [] by {
        assert Split("", '/') == [""];
        assert Fold(false, [], [""]) == Fold(false, [], []);
      }
      assert CleanSegs(prefix) + tail == [] + tail == tail;
    } else {
      var whole := prefix + "/" + joined;
      assert DropEmpty([prefix] + tail) == [prefix] + tail;
      JoinConcat([prefix], tail, '/');
      assert whole == prefix + ['/'] + joined;
      SplitConcat(prefix, joined, '/');
      SplitOfJoin(tail, '/');
      FoldConcat(Rooted(prefix), [], Split(prefix, '/'), tail);
      FoldPlain(Rooted(prefix), CleanSegs(prefix), tail);
      assert Rooted(whole) == Rooted(prefix);
    }
  }

  // An absolute path as filepath.Abs leaves it.
  predicate CleanAbsolute(p: string) { Rooted(p) && Clean(p) == p }

  lemma AbsoluteSegs(p: string)
    requires CleanAbsolute(p)
    ensures AllPlain(CleanSegs(p)) && p == "/" + Join(CleanSegs(p), '/')
  {
    CleanSegsCleaned(p);
  }
}
