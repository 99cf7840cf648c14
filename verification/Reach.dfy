/** Where the readings of what a registry signs lead: the conditions under which
    they stay in their signer's namespace and within what is charged, and how a
    free choice of content type breaks both. */
module Reach {
  import opened Wrappers
  import opened Decimal
  import opened Text
  import opened Paths
  import opened Timestamps
  import opened ObjectKeys
  import opened Places
  import opened Capabilities
  import opened Grants
  import Auth
  import Store

  // The file a grant lets one write lies in v's namespace.
  predicate Reaches(digest: Digest, h: Grant, v: Store.Owner)
  {
    && (v.account != "" || v == Store.Owner("", ""))
    && FileOf(h.key).Some? && OwnerOf(FileOf(h.key).value) == Namespace(digest, v)
  }

  // No reading of a grant to id reaches a namespace that is not id's.
  ghost predicate Homebound(r: Registry, digest: Digest)
  {
    forall id, g, h, v :: Issuable(r, digest, id, g) && Reads(h, g) && Reaches(digest, h, v) ==>
      Namespace(digest, v) == Namespace(digest, OwnerId(id))
  }

  // A write under this size limit can leave more than `size` bytes. A limit that
  // is not positive is none; 2^63-1 overflows and lets no byte through.
  predicate MayExceed(limit: int, size: int) { limit != MAX_INT64 && (limit <= 0 || limit > size) }

  // Both can be signed in one run, unique segments being drawn once.
  predicate Together(g1: Grant, g2: Grant)
  {
    IsDumpKey(g1.key) && IsDumpKey(g2.key) && UniqueOf(g1.key) == UniqueOf(g2.key) ==>
      g1.key == g2.key && g1.maxSize == g2.maxSize
  }

  // h, a reading of g1, can oversize the object that g2 was charged for.
  ghost predicate Oversizes(r: Registry, digest: Digest, all: bool, id1: Auth.Identity, g1: Grant, h: Grant,
                            id2: Auth.Identity, g2: Grant)
  {
    && Issuable(r, digest, id1, g1) && Reads(h, g1) && Issuable(r, digest, id2, g2)
    && FileOf(h.key) == Some(g2.key) && Together(g1, g2) && MayExceed(h.maxSize, g2.maxSize)
    && (all || IsDumpKey(g2.key))
  }

  // No reading can; among dump keys, or among all keys.
  ghost predicate Tight(r: Registry, digest: Digest, all: bool)
  {
    forall id1, g1, h, id2, g2 :: !Oversizes(r, digest, all, id1, g1, h, id2, g2)
  }

  // --------------------------------------------------------- clear registries

  lemma ClearReading(r: Registry, digest: Digest, id: Auth.Identity, g: Grant, h: Grant)
    requires Clear(r) && Issuable(r, digest, id, g) && Reads(h, g)
    ensures h == g && FileOf(h.key) == Some(g.key)
  {
    hide Reads, Ambiguous, FileOf, ValidKey, Clear;
    IssuableOwner(r, digest, id, g);
    GrantsClearExactly(r, digest);
    UnambiguousExactly(g);
    ValidKeyFile(g.key);
  }

  lemma ClearHomebound(r: Registry, digest: Digest)
    requires Clear(r)
    ensures Homebound(r, digest)
  {
    hide Clear, Reads, FileOf, OwnerOf, Namespace, Issuable;
    forall id, g, h, v | Issuable(r, digest, id, g) && Reads(h, g) && Reaches(digest, h, v)
      ensures Namespace(digest, v) == Namespace(digest, OwnerId(id))
    {
      ClearReading(r, digest, id, g, h);
      IssuableOwner(r, digest, id, g);
    }
  }

  lemma ClearDumpTight(r: Registry, digest: Digest)
    requires Clear(r)
    ensures Tight(r, digest, false)
  {
    hide Clear, Reads, FileOf, Issuable, IsDumpKey, UniqueOf;
    forall id1, g1, h, id2, g2 ensures !Oversizes(r, digest, false, id1, g1, h, id2, g2) {
      if Oversizes(r, digest, false, id1, g1, h, id2, g2) {
        ClearReading(r, digest, id1, g1, h);
        IssuableOwner(r, digest, id1, g1);
      }
    }
  }

  // Two sources that draw the same name the same key, whatever the rest.
  lemma SameSourceSameKey(r: Registry, digest: Digest, id: Auth.Identity, g: Grant, g': Grant, w: Source)
    requires IssuedBy(r, digest, id, g, w) && IssuedBy(r, digest, id, g', w)
    ensures g.key == g'.key
  {
    hide ValidKey, PathJoin, Sanitize, UniqueSegment, OwnerSegment;
  }

  // All account places admit only one size, one byte.
  predicate SingleSizes(r: Registry)
  {
    forall n :: n in r.places && Granting(r, n) && r.places[n].strategy == STRATEGY_ACCOUNT ==> r.places[n].maxSize == 1
  }

  lemma TwoSizes(r: Registry, digest: Digest, name: string)
    requires Granting(r, name) && r.places[name].strategy == STRATEGY_ACCOUNT && r.places[name].maxSize != 1
    ensures !Tight(r, digest, true)
  {
    hide ClearPlace, CanGrant, ValidKey, IsDumpKey, UniqueOf, FileOf, SignedText, DeriveKey, Validate;
    var p, w := r.places[name], Plainly(name);
    var t := if p.allowedMime == [] then "" else p.allowedMime[0];
    var g1 := PlaceGrants(r, digest, USER, 2, t, w);
    var g2 := PlaceGrants(r, digest, USER, 1, t, w);
    SameSourceSameKey(r, digest, USER, g1, g2, w);
    ValidKeyFile(g1.key);
    assert Issuable(r, digest, USER, g1) && Issuable(r, digest, USER, g2) && Reads(g1, g1);
    assert Oversizes(r, digest, true, USER, g1, g1, USER, g2);
  }

  lemma SingleSizesTight(r: Registry, digest: Digest)
    requires Clear(r) && SingleSizes(r)
    ensures Tight(r, digest, true)
  {
    hide Clear, SingleSizes, Reads, FileOf, Issuable, IsDumpKey, UniqueOf;
    ClearDumpTight(r, digest);
    forall id1, g1, h, id2, g2 ensures !Oversizes(r, digest, true, id1, g1, h, id2, g2) {
      assert !Oversizes(r, digest, false, id1, g1, h, id2, g2);
      if Oversizes(r, digest, true, id1, g1, h, id2, g2) {
        ClearReading(r, digest, id1, g1, h);
        if !IsDumpKey(g2.key) {
          OneSize(r, digest, id1, g1);
          OneSize(r, digest, id2, g2);
        }
      }
    }
  }

  lemma OneSize(r: Registry, digest: Digest, id: Auth.Identity, g: Grant)
    requires SingleSizes(r) && Issuable(r, digest, id, g) && !IsDumpKey(g.key)
    ensures g.maxSize == 1
  {
    hide CanGrant, ValidKey, IsDumpKey;
    var w: Source :| IssuedBy(r, digest, id, g, w);
    IssuedShape(r, digest, id, g, w);
    var name := GrantedPlace(r, digest, id, g, w);
  }

  // On a clear registry dump keys are tight, and all keys are exactly when no
  // account place admits two sizes.
  lemma ClearTightExactly(r: Registry, digest: Digest)
    requires Clear(r)
    ensures Tight(r, digest, false)
    ensures Tight(r, digest, true) <==> SingleSizes(r)
  {
    ClearDumpTight(r, digest);
    hide Clear, Tight;
    if SingleSizes(r) {
      SingleSizesTight(r, digest);
    } else {
      var n :| n in r.places && Granting(r, n) && r.places[n].strategy == STRATEGY_ACCOUNT && r.places[n].maxSize != 1;
      TwoSizes(r, digest, n);
    }
  }

  // ---------------------------------------------- places that take every type

  function Ups(n: nat): seq<string> { seq(n, _ => "..") }

  lemma {:induction false} FoldUps(out: seq<string>)
    requires AllPlain(out)
    ensures Fold(true, out, Ups(|out|)) == []
    decreases |out|
  {
    if out != [] {
      assert Ups(|out|)[0] == ".." && Ups(|out|)[1..] == Ups(|out| - 1);
      assert out[|out| - 1] in out;
      FoldUps(out[..|out| - 1]);
    }
  }

  function Steering(k1: string, k2: string): string
  {
    "x/" + Join(Ups(|Split(k1, '/')|) + Split(k2, '/'), '/')
  }

  function SteeredKey(k1: string, size: int, k2: string): string { k1 + "\n" + Format(size) + "\n" + Steering(k1, k2) }

  // Appended to any valid key behind a line, it leads to the file of any other.
  lemma SteeredFile(k1: string, size: int, k2: string)
    requires ValidKey(k1) && ValidKey(k2)
    ensures FileOf(SteeredKey(k1, size, k2)) == Some(k2)
  {
    var s1, s2 := Split(k1, '/'), Split(k2, '/');
    var mid := "\n" + Format(size) + "\nx";
    var key := SteeredKey(k1, size, k2);
    SteeredSplit(k1, size, k2);
    assert ("/" + key)[1..] == key;
    assert Split("/" + key, '/') == [""] + Split(key, '/');
    FormatNoSlash(size);
    hide Split, Format, Join, SteeredKey;
    FoldSteered(s1, mid, s2);
    JoinBack(k2);
  }

  lemma SteeredSplit(k1: string, size: int, k2: string)
    requires ValidKey(k1) && ValidKey(k2)
    ensures var s1, mid := Split(k1, '/'), "\n" + Format(size) + "\nx";
            Split(SteeredKey(k1, size, k2), '/')
            == (s1[..|s1| - 1] + [s1[|s1| - 1] + mid]) + (Ups(|s1|) + Split(k2, '/'))
  {
    hide Format, Split, Join, Plain;
    var s1, s2, mid := Split(k1, '/'), Split(k2, '/'), "\n" + Format(size) + "\nx";
    var way := Ups(|s1|) + s2;
    FormatNoSlash(size);
    SplitGlue(k1, mid, "", '/');
    SplitSingle("", '/');
    assert k1 + mid + "" == k1 + mid && s1[|s1| - 1] + mid + "" == s1[|s1| - 1] + mid;
    assert SteeredKey(k1, size, k2) == (k1 + mid) + ['/'] + Join(way, '/');
    SplitConcat(k1 + mid, Join(way, '/'), '/');
    assert forall s :: s in way ==> s == ".." || s in s2;
    SplitOfJoin(way, '/');
  }

  lemma JoinBack(key: string)
    ensures Join(Split(key, '/'), '/') == key
  {
    JoinOfSplit(key, '/');
  }

  lemma FormatNoSlash(n: int)
    ensures '/' !in Format(n)
  {
    assert !IsDigit('/');
  }

  lemma FoldSteered(s1: seq<string>, mid: string, s2: seq<string>)
    requires s1 != [] && AllPlain(s1) && s2 != [] && AllPlain(s2) && '/' !in mid && |mid| > 2
    ensures var turned := s1[..|s1| - 1] + [s1[|s1| - 1] + mid];
            Fold(true, [], [""] + (turned + (Ups(|s1|) + s2))) == s2
  {
    var turned := s1[..|s1| - 1] + [s1[|s1| - 1] + mid];
    assert AllPlain(turned) by { assert s1[|s1| - 1] in s1; }
    var rest := turned + (Ups(|s1|) + s2);
    assert ([""] + rest)[1..] == rest;
    FoldConcat(true, [], turned, Ups(|s1|) + s2);
    FoldPlain(true, [], turned);
    assert [] + turned == turned;
    FoldConcat(true, turned, Ups(|s1|), s2);
    FoldUps(turned);
    FoldPlain(true, [], s2);
    assert [] + s2 == s2;
  }

  // A place that takes every type signs, for any caller, strings that also read
  // as a grant of any size for any file.
  lemma SteeredGrant(r: Registry, digest: Digest, id: Auth.Identity, size: int, want: int, w: Source, k2: string)
    returns (g: Grant, h: Grant)
    requires Granting(r, w.placeName) && r.places[w.placeName].allowedMime == []
    requires Auth.WellFormed(id) && !id.anonymous && Admissible(r.places[w.placeName], size)
    requires w.filename != "" && ValidStamp(w.stamp) && |w.random| == 6
    requires ValidKey(k2) && IsInt64(want)
    ensures IssuedBy(r, digest, id, g, w) && g.maxSize == size
    ensures Reads(h, g) && h.maxSize == want && FileOf(h.key) == Some(k2) && h.key != k2
  {
    hide ValidKey, CanGrant, Steering, SignedText, FileOf, DeriveKey, Format;
    var g0 := PlaceGrants(r, digest, id, size, "", w);
    var steer := Steering(g0.key, k2);
    g := PlaceGrants(r, digest, id, size, steer + "\n" + Format(want) + "\n" + "", w);
    SameSourceSameKey(r, digest, id, g0, g, w);
    h := Grant(SteeredKey(g.key, size, k2), want, "");
    CanonicalCollision(g.key, size, steer, want, "");
    SteeredFile(g.key, size, k2);
    SteeredInvalid(g.key, size, k2);
  }

  lemma SteeredInvalid(k1: string, size: int, k2: string)
    requires ValidKey(k1) && ValidKey(k2)
    ensures SteeredKey(k1, size, k2) != k2
  {
    assert |Join(Ups(|Split(k1, '/')|) + Split(k2, '/'), '/')| >= |k2| by {
      JoinConcat(Ups(|Split(k1, '/')|), Split(k2, '/'), '/');
      JoinOfSplit(k2, '/');
    }
  }

  lemma CatchAllStrays(r: Registry, digest: Digest, name: string)
    requires Granting(r, name) && r.places[name].allowedMime == []
    ensures !Homebound(r, digest)
  {
    var k2 := "_anonymous/f";
    AnonymousFile();
    hide CanGrant, ValidKey, OwnerOf, FileOf, Reads;
    var g, h := SteeredGrant(r, digest, USER, 1, 1, Plainly(name), k2);
    assert Issuable(r, digest, USER, g);
    assert Reaches(digest, h, Store.Owner("", ""));
    assert |Namespace(digest, OwnerId(USER))| == 16 && |ANONYMOUS_OWNER| == 10;
  }

  lemma AnonymousFile()
    ensures ValidKey("_anonymous/f") && OwnerOf("_anonymous/f") == ANONYMOUS_OWNER
  {
    var segs := ["_anonymous", "f"];
    SplitOfJoin(segs, '/');
    assert segs[1..] == ["f"];
    assert Join(segs, '/') == "_anonymous" + ['/'] + "f" == "_anonymous/f";
  }

  lemma OtherRandomOtherSegment(t: Stamp, a: seq<Byte>, b: seq<Byte>)
    requires UniqueSegment(t, a) == UniqueSegment(t, b)
    ensures a == b
  {
    hide FormatStamp, Hex;
    var front := FormatStamp(t) + "-";
    assert (front + Hex(a))[|front|..] == Hex(a) && (front + Hex(b))[|front|..] == Hex(b);
    HexInjective(a, b);
  }

  // A dump key and its unique segment, by the source it was drawn from.
  lemma SourceSegment(r: Registry, digest: Digest, id: Auth.Identity, g: Grant, w: Source)
    requires IssuedBy(r, digest, id, g, w) && IsDumpKey(g.key)
    ensures UniqueOf(g.key) == UniqueSegment(w.stamp, w.random)
  {
    IssuedShape(r, digest, id, g, w);
    var d := DerivationOf(Resolve(r, w.placeName).value, id, RequestOf(g, w), w.stamp, Some(w.random));
    KeyNamesItsOwner(d, digest);
    hide IsDumpKey, UniqueOf, OwnerOf, ValidKey, DeriveKey, UniqueSegment, OwnerIn;
  }

  function Elsewhere(name: string): Source { Plainly(name).(random := [1, 0, 0, 0, 0, 0]) }

  lemma TwoSources(r: Registry, digest: Digest, id1: Auth.Identity, g1: Grant, w1: Source,
                   id2: Auth.Identity, g2: Grant, w2: Source)
    requires IssuedBy(r, digest, id1, g1, w1) && IssuedBy(r, digest, id2, g2, w2)
    requires w1.stamp == w2.stamp && w1.random != w2.random
    ensures Together(g1, g2)
  {
    hide IssuedBy, IsDumpKey, UniqueOf, UniqueSegment;
    if IsDumpKey(g1.key) && IsDumpKey(g2.key) && UniqueOf(g1.key) == UniqueOf(g2.key) {
      SourceSegment(r, digest, id1, g1, w1);
      SourceSegment(r, digest, id2, g2, w2);
      OtherRandomOtherSegment(w1.stamp, w1.random, w2.random);
    }
  }

  lemma CatchAllOversizes(r: Registry, digest: Digest, all: bool, name: string, other: string)
    requires Granting(r, name) && r.places[name].allowedMime == []
    requires Granting(r, other) && (all || r.places[other].strategy == STRATEGY_DUMP)
    ensures !Tight(r, digest, all)
  {
    hide CanGrant, ValidKey, OwnerOf, FileOf, Reads, IsDumpKey, Together;
    var w1, w2 := Plainly(name), Elsewhere(other);
    var p := r.places[other];
    var t := if p.allowedMime == [] then "" else p.allowedMime[0];
    var g2 := PlaceGrants(r, digest, USER, 1, t, w2);
    var g1, h := SteeredGrant(r, digest, USER, 1, 0, w1, g2.key);
    TwoSources(r, digest, USER, g1, w1, USER, g2, w2);
    assert Issuable(r, digest, USER, g1) && Issuable(r, digest, USER, g2);
    assert Oversizes(r, digest, all, USER, g1, h, USER, g2);
  }
}
