/** Places: upload policy, and derivation of object keys from identities. */
module Places {
  import opened Wrappers
  import opened Text
  import opened Paths
  import opened Decimal
  import opened Timestamps
  import opened ObjectKeys

  const STRATEGY_DUMP := "dump"
  const STRATEGY_ACCOUNT := "account"
  const ANONYMOUS_OWNER := "_anonymous"
  const MAX_FILENAME_LEN := 128

  datatype PlaceError =
    | UnknownPlace | NoPlaceSpecified | IdentityRequired | TooLarge | MimeNotAllowed
    | InvalidRequest | UnknownStrategy | UnconfiguredDefault | RandomnessFailed

  datatype Definition = Definition(
    prefix: string, strategy: string, maxSize: int, allowedMime: seq<string>, requireIdentity: bool)

  datatype Place = Place(
    name: string, prefix: string, strategy: string, maxSize: int, allowedMime: seq<string>, requireIdentity: bool)

  datatype Request = Request(filename: string, size: int, contentType: string)

  // Everything DeriveKey looks at: the place, the caller, the request, the clock
  // and the random bytes (None when the generator fails).
  datatype Derivation = Derivation(
    place: Place, subject: string, issuer: string, anonymous: bool,
    req: Request, now: Stamp, random: Option<seq<Byte>>)

  datatype Registry = Registry(places: map<string, Place>, defaultName: string)

  // The first 8 bytes of a SHA-256 sum; the hash itself is a parameter.
  type Fingerprint = s: seq<Byte> | |s| == 8 witness [0, 0, 0, 0, 0, 0, 0, 0]
  type Digest = string -> Fingerprint

  // ---------------------------------------------------------------- filenames

  predicate SafeChar(c: char)
  {
    'a' <= c <= 'z' || 'A' <= c <= 'Z' || '0' <= c <= '9' || c == '.' || c == '-' || c == '_'
  }

  function Replaced(c: char): char { if SafeChar(c) then c else '_' }

  function BaseName(name: string): string
  {
    if name == "" then ""
    else if name[|name| - 1] == '/' || name[|name| - 1] == '\\' then ""
    else BaseName(name[..|name| - 1]) + [name[|name| - 1]]
  }

  function ReplaceAll(name: string): (s: string)
    ensures |s| == |name|
    ensures forall i :: 0 <= i < |s| ==> s[i] == Replaced(name[i])
  {
    if name == "" then "" else ReplaceAll(name[..|name| - 1]) + [Replaced(name[|name| - 1])]
  }

  function TrimLeft(s: string): string
  {
    if s != "" && s[0] == '.' then TrimLeft(s[1..]) else s
  }

  function TrimRight(s: string): string
  {
    if s != "" && s[|s| - 1] == '.' then TrimRight(s[..|s| - 1]) else s
  }

  function Sanitize(name: string): string
  {
    var s := TrimRight(TrimLeft(ReplaceAll(BaseName(name))));
    if s == "" then "file"
    else if |s| > MAX_FILENAME_LEN then s[|s| - MAX_FILENAME_LEN..]
    else s
  }

  method SanitizeFilename(name: string) returns (r: string)
    ensures r == Sanitize(name)
  {
    var base := BaseName(name);
    var b := "";
    for i := 0 to |base|
      invariant b == ReplaceAll(base[..i])
    {
      var c := base[i];
      assert base[..i + 1][..i] == base[..i];
      if SafeChar(c) {
        b := b + [c];
      } else {
        b := b + ['_'];
      }
    }
    assert base[..|base|] == base;
    var s := TrimRight(TrimLeft(b));
    if s == "" {
      return "file";
    }
    if |s| > MAX_FILENAME_LEN {
      s := s[|s| - MAX_FILENAME_LEN..];
    }
    return s;
  }

  lemma {:induction false} TrimLeftShape(s: string)
    ensures exists i :: 0 <= i <= |s| && TrimLeft(s) == s[i..]
    ensures TrimLeft(s) != "" ==> TrimLeft(s)[0] != '.'
    ensures s != "" && s[0] != '.' ==> TrimLeft(s) == s
  {
    if s != "" && s[0] == '.' {
      TrimLeftShape(s[1..]);
      var i :| 0 <= i <= |s| - 1 && TrimLeft(s[1..]) == s[1..][i..];
      assert TrimLeft(s) == s[i + 1..];
    } else {
      assert TrimLeft(s) == s[0..];
    }
  }

  lemma {:induction false} TrimRightShape(s: string)
    ensures exists i :: 0 <= i <= |s| && TrimRight(s) == s[..i]
    ensures TrimRight(s) != "" ==> TrimRight(s)[|TrimRight(s)| - 1] != '.'
    ensures s != "" && s[|s| - 1] != '.' ==> TrimRight(s) == s
  {
    if s != "" && s[|s| - 1] == '.' {
      TrimRightShape(s[..|s| - 1]);
      var i :| 0 <= i <= |s| - 1 && TrimRight(s[..|s| - 1]) == s[..|s| - 1][..i];
      assert TrimRight(s) == s[..i];
    } else {
      assert TrimRight(s) == s[..|s|];
    }
  }

  predicate SafeName(f: string)
  {
    && 1 <= |f| <= MAX_FILENAME_LEN
    && AllSafe(f)
    && f[|f| - 1] != '.'
    && (f[0] == '.' ==> |f| == MAX_FILENAME_LEN)
  }

  predicate AllSafe(s: string) { forall i :: 0 <= i < |s| ==> SafeChar(s[i]) }

  lemma TrimmedShape(mapped: string)
    requires AllSafe(mapped)
    ensures var s := TrimRight(TrimLeft(mapped));
            AllSafe(s) && (s != "" ==> s[0] != '.' && s[|s| - 1] != '.')
  {
    TrimLeftShape(mapped);
    TrimRightShape(TrimLeft(mapped));
  }

  lemma SafeNamePlain(f: string)
    requires SafeName(f)
    ensures Plain(f) && '\n' !in f
  {
    assert !SafeChar('/') && !SafeChar('\n');
  }

  // Whatever the client sends, the last segment is a safe file name. A leading
  // dot can survive only when the name was cut to exactly 128 characters.
  lemma SanitizeSafe(name: string)
    ensures SafeName(Sanitize(name))
    ensures Plain(Sanitize(name)) && '\n' !in Sanitize(name)
  {
    var mapped := ReplaceAll(BaseName(name));
    TrimmedShape(mapped);
    SafeNamePlain(Sanitize(name));
  }

  lemma {:induction false} BaseNameOfPlain(name: string)
    requires '/' !in name && '\\' !in name
    ensures BaseName(name) == name
  {
    if name != "" {
      assert forall c :: c in name[..|name| - 1] ==> c in name;
      BaseNameOfPlain(name[..|name| - 1]);
      assert name[|name| - 1] in name;
    }
  }

  // Directory parts are dropped, whatever separator the client uses.
  lemma SanitizeDropsDirectories(dirs: string, sep: char, name: string)
    requires sep == '/' || sep == '\\'
    ensures Sanitize(dirs + [sep] + name) == Sanitize(name)
  {
    BaseNameAfter(dirs, sep, name);
  }

  lemma {:induction false} BaseNameAfter(dirs: string, sep: char, name: string)
    requires sep == '/' || sep == '\\'
    ensures BaseName(dirs + [sep] + name) == BaseName(name)
  {
    var whole := dirs + [sep] + name;
    if name == "" {
      assert whole[|whole| - 1] == sep;
    } else {
      assert whole[|whole| - 1] == name[|name| - 1];
      assert whole[..|whole| - 1] == dirs + [sep] + name[..|name| - 1];
      BaseNameAfter(dirs, sep, name[..|name| - 1]);
    }
  }

  // The other names: with no separator and no outer dot, safe characters stay,
  // every other one becomes an underscore, and only the last 128 are kept.
  lemma SanitizeMaps(name: string)
    requires name != "" && '/' !in name && '\\' !in name && name[0] != '.' && name[|name| - 1] != '.'
    ensures var s := Sanitize(name);
            var cut := if |name| <= 128 then 0 else |name| - 128;
            && |s| == |name| - cut
            && forall i :: 0 <= i < |s| ==>
                 var c := name[cut + i];
                 s[i] == if 'a' <= c <= 'z' || 'A' <= c <= 'Z' || '0' <= c <= '9' || c == '.' || c == '-' || c == '_'
                         then c else '_'
  {
    BaseNameOfPlain(name);
    TrimLeftShape(ReplaceAll(name));
    TrimRightShape(ReplaceAll(name));
    assert Replaced(name[0]) != '.' && Replaced(name[|name| - 1]) != '.';
    hide BaseName, TrimLeft, TrimRight;
  }

  // Outer dots do not matter, and a name of nothing else becomes "file".
  lemma SanitizeDropsDots(name: string)
    ensures Sanitize("." + name) == Sanitize(name) == Sanitize(name + ".")
    ensures Sanitize("") == "file"
  {
    LeadingDot(name);
    TrailingDot(name);
    assert BaseName("") == "" && ReplaceAll("") == "";
    hide BaseName, ReplaceAll;
  }

  lemma TrailingDot(name: string)
    ensures TrimRight(TrimLeft(ReplaceAll(BaseName(name + "."))))
            == TrimRight(TrimLeft(ReplaceAll(BaseName(name))))
  {
    BaseNameTrailingDot(name);
    ReplaceTrailingDot(BaseName(name));
    TrimTrailingDot(ReplaceAll(BaseName(name)));
    hide BaseName, ReplaceAll, TrimLeft, TrimRight;
  }

  lemma BaseNameTrailingDot(name: string)
    ensures BaseName(name + ".") == BaseName(name) + "."
  {
    var longer := name + ".";
    assert longer[|longer| - 1] == '.' && longer[..|longer| - 1] == name;
  }

  lemma ReplaceTrailingDot(s: string)
    ensures ReplaceAll(s + ".") == ReplaceAll(s) + "."
  {
    var longer := s + ".";
    assert longer[|longer| - 1] == '.' && longer[..|longer| - 1] == s;
    assert Replaced('.') == '.';
    hide Replaced;
  }

  lemma LeadingDot(name: string)
    ensures TrimLeft(ReplaceAll(BaseName("." + name))) == TrimLeft(ReplaceAll(BaseName(name)))
  {
    hide BaseName;
    BaseNameLeadingDot(name);
    if BaseName("." + name) == "." + BaseName(name) {
      ReplaceLeadingDot(BaseName(name));
      hide ReplaceAll;
      assert ("." + ReplaceAll(BaseName(name)))[1..] == ReplaceAll(BaseName(name));
    }
  }

  lemma {:induction false} BaseNameLeadingDot(name: string)
    ensures BaseName("." + name) == BaseName(name) || BaseName("." + name) == "." + BaseName(name)
  {
    if name == "" {
      assert "."[..0] == "";
      assert BaseName(".") == BaseName("") + ".";
      assert "." + "" == ".";
    } else {
      assert ("." + name)[..|name|] == "." + name[..|name| - 1];
      BaseNameLeadingDot(name[..|name| - 1]);
      assert "." + (BaseName(name[..|name| - 1]) + [name[|name| - 1]])
          == ("." + BaseName(name[..|name| - 1])) + [name[|name| - 1]];
    }
  }

  lemma ReplaceLeadingDot(s: string)
    ensures ReplaceAll("." + s) == "." + ReplaceAll(s)
  {
    assert forall i :: 0 < i <= |s| ==> ("." + s)[i] == s[i - 1];
  }

  lemma {:induction false} TrimTrailingDot(s: string)
    ensures TrimRight(TrimLeft(s + ".")) == TrimRight(TrimLeft(s))
  {
    if s != "" && s[0] == '.' {
      assert (s + ".")[1..] == s[1..] + ".";
      TrimTrailingDot(s[1..]);
    } else if s == "" {
      assert s + "." == ".";
      assert TrimLeft(".") == TrimLeft("") by { assert "."[1..] == ""; }
    } else {
      assert (s + ".")[..|s|] == s;
    }
  }

  // ------------------------------------------------------------ owner segments

  function AccountHash(digest: Digest, issuer: string, subject: string): string
  {
    Hex(digest(issuer + "\0" + subject))
  }

  function OwnerSegment(digest: Digest, subject: string, issuer: string, anonymous: bool): (o: string)
    ensures |o| <= 16 && Plain(o) && '\n' !in o
    ensures !anonymous ==> |o| == 16
  {
    if anonymous then ANONYMOUS_OWNER
    else
      var o := AccountHash(digest, issuer, subject);
      assert '/' !in o && '\n' !in o;
      o
  }

  // The reserved owner is nobody's account hash.
  lemma AnonymousApart(digest: Digest, subject: string, issuer: string)
    ensures OwnerSegment(digest, "", "", true) == "_anonymous"
    ensures OwnerSegment(digest, subject, issuer, false) != OwnerSegment(digest, "", "", true)
  {
  }

  // -------------------------------------------------------------- derivation

  function DeriveKey(d: Derivation, digest: Digest): Result<string, PlaceError>
  {
    if d.anonymous && d.place.strategy == STRATEGY_ACCOUNT then Err(IdentityRequired)
    else
      var owner := OwnerSegment(digest, d.subject, d.issuer, d.anonymous);
      var filename := Sanitize(d.req.filename);
      if d.place.strategy == STRATEGY_DUMP then
        if d.random.None? then Err(RandomnessFailed)
        else Ok(PathJoin([d.place.prefix, owner, UniqueSegment(d.now, d.random.value), filename]))
      else if d.place.strategy == STRATEGY_ACCOUNT then
        Ok(PathJoin([d.place.prefix, owner, filename]))
      else Err(UnknownStrategy)
  }

  // The segments a derived key adds below its place's prefix.
  function KeyTail(dump: bool, owner: string, unique: string, filename: string): seq<string>
  {
    if dump then [owner, unique, filename] else [owner, filename]
  }

  function OwnerIn(d: Derivation, digest: Digest): (o: string)
    ensures |o| <= 16 && Plain(o) && '\n' !in o
  {
    OwnerSegment(digest, d.subject, d.issuer, d.anonymous)
  }

  function UniqueIn(d: Derivation): string
  {
    if d.random.Some? then UniqueSegment(d.now, d.random.value) else ""
  }

  function DerivedTail(d: Derivation, digest: Digest): seq<string>
  {
    KeyTail(d.place.strategy == STRATEGY_DUMP, OwnerIn(d, digest), UniqueIn(d), Sanitize(d.req.filename))
  }

  lemma TailPlain(d: Derivation, digest: Digest)
    requires DeriveKey(d, digest).Ok?
    ensures AllPlain(DerivedTail(d, digest))
    ensures forall s :: s in DerivedTail(d, digest) ==> '\n' !in s
    ensures d.place.strategy == STRATEGY_DUMP ==> |UniqueIn(d)| > 16
  {
    SanitizeSafe(d.req.filename);
    if d.place.strategy == STRATEGY_DUMP { SegmentShape(d.now, d.random.value); }
  }

  lemma DeriveShape(d: Derivation, digest: Digest)
    requires DeriveKey(d, digest).Ok?
    ensures DeriveKey(d, digest).value ==
        Render(Rooted(d.place.prefix), CleanSegs(d.place.prefix) + DerivedTail(d, digest))
    ensures Cleaned(Rooted(d.place.prefix), CleanSegs(d.place.prefix) + DerivedTail(d, digest))
  {
    var tail := DerivedTail(d, digest);
    TailPlain(d, digest);
    JoinKeepsTail(d.place.prefix, tail);
    assert [d.place.prefix] + tail ==
      if d.place.strategy == STRATEGY_DUMP then [d.place.prefix, tail[0], tail[1], tail[2]]
      else [d.place.prefix, tail[0], tail[1]];
    CleanSegsCleaned(d.place.prefix);
    CleanedWithTail(Rooted(d.place.prefix), CleanSegs(d.place.prefix), tail);
  }

  lemma CleanedWithTail(rooted: bool, segs: seq<string>, tail: seq<string>)
    requires Cleaned(rooted, segs) && AllPlain(tail)
    ensures Cleaned(rooted, segs + tail)
  {
    var all := segs + tail;
    forall i, j | 0 <= i < j < |all| ensures all[j] == ".." ==> all[i] == ".." {
      if j >= |segs| { assert all[j] in tail; }
    }
  }

  lemma SameTails(a: seq<string>, dump: bool, o: string, u: string, f: string,
                  a': seq<string>, dump': bool, o': string, u': string, f': string)
    requires a + KeyTail(dump, o, u, f) == a' + KeyTail(dump', o', u', f')
    requires |o| <= 16 && |o'| <= 16 && (dump ==> |u| > 16) && (dump' ==> |u'| > 16)
    ensures dump == dump' && a == a' && o == o' && f == f' && (dump ==> u == u')
  {
    var t, t' := KeyTail(dump, o, u, f), KeyTail(dump', o', u', f');
    assert t[|t| - 2] == (a + t)[|a + t| - 2] == (a' + t')[|a' + t'| - 2] == t'[|t'| - 2];
    assert dump == dump';
    assert a == (a + t)[..|a|] == (a' + t')[..|a'|] == a';
    assert t == (a + t)[|a|..] == (a' + t')[|a'|..] == t';
    assert t[0] == t'[0] && t[1] == t'[1] && t[|t| - 1] == t'[|t'| - 1];
  }

  // Two derived keys are equal exactly when they agree on strategy, cleaned
  // prefix, owner segment, file name and, for dump keys, unique segment. So no
  // choice of prefixes makes a dump key an account key, or moves an owner.
  lemma DerivedKeysEqualExactly(d: Derivation, d': Derivation, digest: Digest)
    requires DeriveKey(d, digest).Ok? && DeriveKey(d', digest).Ok?
    ensures DeriveKey(d, digest) == DeriveKey(d', digest)
       <==> (&& d.place.strategy == d'.place.strategy
             && Rooted(d.place.prefix) == Rooted(d'.place.prefix)
             && CleanSegs(d.place.prefix) == CleanSegs(d'.place.prefix)
             && OwnerIn(d, digest) == OwnerIn(d', digest)
             && Sanitize(d.req.filename) == Sanitize(d'.req.filename)
             && (d.place.strategy == STRATEGY_DUMP ==> UniqueIn(d) == UniqueIn(d')))
  {
    DeriveShape(d, digest);
    DeriveShape(d', digest);
    TailPlain(d, digest);
    TailPlain(d', digest);
    if DeriveKey(d, digest) == DeriveKey(d', digest) {
      RenderInjective(Rooted(d.place.prefix), CleanSegs(d.place.prefix) + DerivedTail(d, digest),
                      Rooted(d'.place.prefix), CleanSegs(d'.place.prefix) + DerivedTail(d', digest));
      SameTails(CleanSegs(d.place.prefix), d.place.strategy == STRATEGY_DUMP,
                OwnerIn(d, digest), UniqueIn(d), Sanitize(d.req.filename),
                CleanSegs(d'.place.prefix), d'.place.strategy == STRATEGY_DUMP,
                OwnerIn(d', digest), UniqueIn(d'), Sanitize(d'.req.filename));
    }
  }

  // ------------------------------------------- reading a key back: the owner

  // A dump key is recognised by the length of its next-to-last segment.
  predicate IsDumpKey(key: string)
  {
    var segs := Split(key, '/');
    |segs| >= 3 && |segs[|segs| - 2]| > 16
  }

  // The owner segment of a key, read from its tail alone.
  function OwnerOf(key: string): string
  {
    var segs := Split(key, '/');
    if IsDumpKey(key) then segs[|segs| - 3]
    else if |segs| >= 2 then segs[|segs| - 2]
    else ""
  }

  // The unique segment of a dump key.
  function UniqueOf(key: string): string
  {
    var segs := Split(key, '/');
    if IsDumpKey(key) then segs[|segs| - 2] else ""
  }

  lemma SplitOfRender(rooted: bool, segs: seq<string>)
    requires segs != [] && forall s :: s in segs ==> '/' !in s
    ensures Split(Render(rooted, segs), '/') == if rooted then [""] + segs else segs
  {
    SplitOfJoin(segs, '/');
    if rooted {
      assert ("/" + Join(segs, '/'))[1..] == Join(segs, '/');
    }
  }

  // The segments of a key in front of its tail.
  function Head(prefix: string): seq<string>
  {
    if Rooted(prefix) then [""] + CleanSegs(prefix) else CleanSegs(prefix)
  }

  lemma RenderSegments(rooted: bool, segs: seq<string>, tail: seq<string>)
    requires tail != [] && Cleaned(rooted, segs + tail)
    ensures Split(Render(rooted, segs + tail), '/') == (if rooted then [""] + segs else segs) + tail
  {
    SplitOfRender(rooted, segs + tail);
    assert [""] + (segs + tail) == ([""] + segs) + tail;
  }

  lemma KeySegments(d: Derivation, digest: Digest)
    requires DeriveKey(d, digest).Ok?
    ensures Split(DeriveKey(d, digest).value, '/') == Head(d.place.prefix) + DerivedTail(d, digest)
  {
    DeriveShape(d, digest);
    RenderSegments(Rooted(d.place.prefix), CleanSegs(d.place.prefix), DerivedTail(d, digest));
  }

  // The owner, the strategy and the unique segment are functions of the key
  // string alone, whatever prefixes are configured: owners' namespaces are
  // disjoint.
  lemma KeyNamesItsOwner(d: Derivation, digest: Digest)
    requires DeriveKey(d, digest).Ok?
    ensures OwnerOf(DeriveKey(d, digest).value) == OwnerIn(d, digest)
    ensures IsDumpKey(DeriveKey(d, digest).value) <==> d.place.strategy == STRATEGY_DUMP
    ensures d.place.strategy == STRATEGY_DUMP ==> UniqueOf(DeriveKey(d, digest).value) == UniqueIn(d)
  {
    KeySegments(d, digest);
    TailPlain(d, digest);
    var tail := DerivedTail(d, digest);
    var segs := Head(d.place.prefix) + tail;
    assert segs[|segs| - 2] == tail[|tail| - 2];
    if d.place.strategy == STRATEGY_DUMP { assert segs[|segs| - 3] == tail[0]; }
  }

  // A derived key passes validateKey exactly when its place's prefix is relative
  // and does not climb.
  lemma {:induction false} DerivedKeyValidExactly(d: Derivation, digest: Digest)
    requires DeriveKey(d, digest).Ok?
    ensures ValidKey(DeriveKey(d, digest).value)
       <==> !Rooted(d.place.prefix) && ".." !in CleanSegs(d.place.prefix)
  {
    KeySegments(d, digest);
    TailPlain(d, digest);
    CleanSegsCleaned(d.place.prefix);
    var segs := Split(DeriveKey(d, digest).value, '/');
    if Rooted(d.place.prefix) {
      assert segs[0] == "" && segs[0] in segs;
    } else {
      assert segs == CleanSegs(d.place.prefix) + DerivedTail(d, digest);
      assert forall s :: s in segs <==> s in CleanSegs(d.place.prefix) || s in DerivedTail(d, digest);
    }
  }

  // No newline reaches a key except through the configured prefix.
  lemma DerivedKeyOneLine(d: Derivation, digest: Digest)
    requires DeriveKey(d, digest).Ok?
    requires forall s :: s in CleanSegs(d.place.prefix) ==> '\n' !in s
    ensures '\n' !in DeriveKey(d, digest).value
  {
    DeriveShape(d, digest);
    TailPlain(d, digest);
    JoinAvoids(CleanSegs(d.place.prefix) + DerivedTail(d, digest), '/', '\n');
  }

  // --------------------------------------------------------------- registry

  function Build(name: string, d: Definition, globalMaxSize: int): Result<Place, PlaceError>
  {
    var prefix := if d.prefix == "" then name else d.prefix;
    var strategy := if d.strategy == "" then STRATEGY_DUMP else d.strategy;
    if strategy != STRATEGY_DUMP && strategy != STRATEGY_ACCOUNT then Err(UnknownStrategy)
    else
      Ok(Place(name, prefix, strategy, if d.maxSize == 0 then globalMaxSize else d.maxSize,
               d.allowedMime, d.requireIdentity || strategy == STRATEGY_ACCOUNT))
  }

  // What New accepts and what it then holds.
  predicate Buildable(defs: map<string, Definition>, defaultName: string, globalMaxSize: int)
  {
    && (forall name :: name in defs ==> Build(name, defs[name], globalMaxSize).Ok?)
    && (defaultName != "" ==> defaultName in defs)
  }

  predicate IsRegistry(r: Registry, defs: map<string, Definition>, defaultName: string, globalMaxSize: int)
  {
    && r.defaultName == defaultName
    && r.places.Keys == defs.Keys
    && forall name :: name in defs ==> Build(name, defs[name], globalMaxSize) == Ok(r.places[name])
  }

  method New(defs: map<string, Definition>, defaultName: string, globalMaxSize: int)
    returns (r: Result<Registry, PlaceError>)
    ensures r.Ok? <==> Buildable(defs, defaultName, globalMaxSize)
    ensures r.Ok? ==> IsRegistry(r.value, defs, defaultName, globalMaxSize)
    ensures r == Err(UnknownStrategy)
       <==> exists name :: name in defs && defs[name].strategy !in {"", "dump", "account"}
    ensures r == Err(UnconfiguredDefault)
       <==> defaultName != "" && defaultName !in defs
            && forall name :: name in defs ==> defs[name].strategy in {"", "dump", "account"}
    ensures r.Err? ==> r.error == UnknownStrategy || r.error == UnconfiguredDefault
  {
    var places: map<string, Place> := map[];
    var todo := defs.Keys;
    while todo != {}
      invariant todo <= defs.Keys && places.Keys == defs.Keys - todo
      invariant forall name :: name in places ==> Build(name, defs[name], globalMaxSize) == Ok(places[name])
      decreases todo
    {
      var name :| name in todo;
      var p := Build(name, defs[name], globalMaxSize);
      if p.Err? {
        return Err(p.error);
      }
      places := places[name := p.value];
      todo := todo - {name};
    }
    if defaultName != "" && defaultName !in places {
      return Err(UnconfiguredDefault);
    }
    return Ok(Registry(places, defaultName));
  }

  function Resolve(r: Registry, name: string): Result<Place, PlaceError>
  {
    if name == "" && r.defaultName == "" then Err(NoPlaceSpecified)
    else
      var n := if name == "" then r.defaultName else name;
      if n in r.places then Ok(r.places[n]) else Err(UnknownPlace)
  }

  function Validate(p: Place, req: Request, anonymous: bool): Option<PlaceError>
  {
    if anonymous && p.requireIdentity then Some(IdentityRequired)
    else if req.size <= 0 then Some(InvalidRequest)
    else if p.maxSize > 0 && req.size > p.maxSize then Some(TooLarge)
    else if |p.allowedMime| > 0 && req.contentType !in p.allowedMime then Some(MimeNotAllowed)
    else None
  }

  // What a request is held to: the definition of the place it names, or of the
  // default place, with the registry's size cap unless it sets its own, and an
  // identity whenever keys are per account.
  lemma ResolvedPolicy(r: Registry, defs: map<string, Definition>, defaultName: string, globalMaxSize: int,
                       name: string)
    requires IsRegistry(r, defs, defaultName, globalMaxSize)
    ensures var n := if name == "" then defaultName else name;
            && (Resolve(r, name) == Err(NoPlaceSpecified) <==> n == "")
            && (Resolve(r, name).Ok? <==> n != "" && n in defs)
            && (Resolve(r, name).Ok? ==>
                  var d, p := defs[n], Resolve(r, name).value;
                  && p.name == n
                  && p.strategy == (if d.strategy == "" then "dump" else d.strategy)
                  && (d.strategy == "dump" || d.strategy == "account" || d.strategy == "")
                  && (p.requireIdentity <==> d.requireIdentity || d.strategy == "account")
                  && p.prefix == (if d.prefix == "" then n else d.prefix)
                  && p.maxSize == (if d.maxSize == 0 then globalMaxSize else d.maxSize)
                  && p.allowedMime == d.allowedMime)
  {
    var n := if name == "" then defaultName else name;
    if n in defs { assert Build(n, defs[n], globalMaxSize) == Ok(r.places[n]); }
  }

  // What Validate lets through, whatever it names as the reason otherwise.
  lemma AcceptedRequest(p: Place, req: Request, anonymous: bool)
    ensures Validate(p, req, anonymous).None?
       <==> (&& 0 < req.size && (p.maxSize <= 0 || req.size <= p.maxSize)
             && (p.allowedMime == [] || req.contentType in p.allowedMime)
             && !(anonymous && p.requireIdentity))
  {
  }

  // On a registry that New built, a request that Resolve and Validate accept
  // fails in DeriveKey only when a dump key gets no randomness.
  lemma PipelineTotal(r: Registry, defs: map<string, Definition>, defaultName: string, globalMaxSize: int,
                      name: string, d: Derivation, digest: Digest)
    requires IsRegistry(r, defs, defaultName, globalMaxSize)
    requires Resolve(r, name) == Ok(d.place) && Validate(d.place, d.req, d.anonymous).None?
    ensures DeriveKey(d, digest).Err? <==> d.place.strategy == STRATEGY_DUMP && d.random.None?
  {
    var n := if name == "" then r.defaultName else name;
    assert Build(n, defs[n], globalMaxSize) == Ok(r.places[n]);
  }
}
