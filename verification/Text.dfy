/** Splitting text at a separator and joining it back: path segments separated
    by '/', and the newline-separated lines of a capability. */
module Text {

  // Go's strings.Split for a one-character separator.
  function Split(s: string, sep: char): (parts: seq<string>)
    ensures |parts| >= 1
    ensures forall p :: p in parts ==> sep !in p
  {
    if s == "" then [""]
    else
      var rest := Split(s[1..], sep);
      if s[0] == sep then [""] + rest else [[s[0]] + rest[0]] + rest[1..]
  }

  // Go's strings.Join.
  function Join(parts: seq<string>, sep: char): string
  {
    if |parts| == 0 then ""
    else if |parts| == 1 then parts[0]
    else parts[0] + [sep] + Join(parts[1..], sep)
  }

  lemma {:induction false} JoinOfSplit(s: string, sep: char)
    ensures Join(Split(s, sep), sep) == s
  {
    if s != "" {
      var rest := Split(s[1..], sep);
      JoinOfSplit(s[1..], sep);
      var parts := Split(s, sep);
      if s[0] == sep {
        assert parts[1..] == rest;
      } else if |rest| == 1 {
      } else {
        assert parts[1..] == rest[1..];
        assert [s[0]] + (rest[0] + [sep] + Join(rest[1..], sep)) == parts[0] + [sep] + Join(parts[1..], sep);
      }
    }
  }

  // Splitting is a homomorphism: a separator between two texts is a boundary.
  lemma {:induction false} SplitConcat(a: string, b: string, sep: char)
    ensures Split(a + [sep] + b, sep) == Split(a, sep) + Split(b, sep)
  {
    if a == "" {
      assert (a + [sep] + b)[1..] == b;
    } else {
      assert (a + [sep] + b)[1..] == a[1..] + [sep] + b;
      SplitConcat(a[1..], b, sep);
    }
  }

  lemma {:induction false} SplitSingle(s: string, sep: char)
    requires sep !in s
    ensures Split(s, sep) == [s]
  {
    if s != "" {
      assert forall c :: c in s[1..] ==> c in s;
      SplitSingle(s[1..], sep);
      assert [s[0]] + s[1..] == s;
    }
  }

  lemma {:induction false} SplitOfJoin(parts: seq<string>, sep: char)
    requires |parts| >= 1
    requires forall p :: p in parts ==> sep !in p
    ensures Split(Join(parts, sep), sep) == parts
  {
    SplitSingle(parts[0], sep);
    if |parts| > 1 {
      SplitOfJoin(parts[1..], sep);
      SplitConcat(parts[0], Join(parts[1..], sep), sep);
    }
  }

  lemma JoinInjective(a: seq<string>, b: seq<string>, sep: char)
    requires |a| >= 1 && |b| >= 1
    requires forall p :: p in a ==> sep !in p
    requires forall p :: p in b ==> sep !in p
    requires Join(a, sep) == Join(b, sep)
    ensures a == b
  {
    SplitOfJoin(a, sep);
    SplitOfJoin(b, sep);
  }

  lemma {:induction false} JoinConcat(a: seq<string>, b: seq<string>, sep: char)
    requires |a| >= 1 && |b| >= 1
    ensures Join(a + b, sep) == Join(a, sep) + [sep] + Join(b, sep)
  {
    if |a| == 1 {
      assert (a + b)[1..] == b;
    } else {
      assert (a + b)[1..] == a[1..] + b;
      JoinConcat(a[1..], b, sep);
    }
  }

  // A character that is in no part and is not the separator is not in the join.
  lemma {:induction false} JoinAvoids(parts: seq<string>, sep: char, c: char)
    requires c != sep
    requires forall p :: p in parts ==> c !in p
    ensures c !in Join(parts, sep)
  {
    if |parts| > 1 {
      JoinAvoids(parts[1..], sep, c);
    }
  }

  // The parts around an insertion without separators.
  function Glued(a: seq<string>, x: string, b: seq<string>): seq<string>
    requires a != [] && b != []
  {
    a[..|a| - 1] + [a[|a| - 1] + x + b[0]] + b[1..]
  }

  lemma {:induction false} JoinGlue(a: seq<string>, x: string, b: seq<string>, sep: char)
    requires a != [] && b != []
    ensures Join(Glued(a, x, b), sep) == Join(a, sep) + x + Join(b, sep)
    decreases |a|
  {
    var all := Glued(a, x, b);
    if |a| == 1 {
      assert all[1..] == b[1..];
      if |b| > 1 {
        assert a[0] + x + b[0] + ([sep] + Join(b[1..], sep)) == a[0] + x + (b[0] + [sep] + Join(b[1..], sep));
      }
    } else {
      assert all[1..] == Glued(a[1..], x, b);
      JoinGlue(a[1..], x, b, sep);
      assert a[0] + [sep] + (Join(a[1..], sep) + x + Join(b, sep))
          == (a[0] + [sep] + Join(a[1..], sep)) + x + Join(b, sep);
    }
  }

  // Text without separators joins the parts beside it.
  lemma SplitGlue(a: string, x: string, b: string, sep: char)
    requires sep !in x
    ensures Split(a + x + b, sep) == Glued(Split(a, sep), x, Split(b, sep))
  {
    hide Split, Join;
    var sa, sb := Split(a, sep), Split(b, sep);
    JoinOfSplit(a, sep);
    JoinOfSplit(b, sep);
    JoinGlue(sa, x, sb, sep);
    assert forall p :: p in sa[..|sa| - 1] ==> p in sa;
    assert forall p :: p in sb[1..] ==> p in sb;
    assert sa[|sa| - 1] in sa && sb[0] in sb;
    SplitOfJoin(Glued(sa, x, sb), sep);
  }
}
