/** What a registry can grant: the uploads its places sign, how a signed string can
    be read, and the conditions on the places that the gateway's promises turn on. */
module Grants {
  import opened Wrappers
  import opened Decimal
  import opened Text
  import opened Paths
  import opened Timestamps
  import opened ObjectKeys
  import opened Places
  import opened Capabilities
  import Auth
  import Store

  // The namespace of an owner; the empty account is the anonymous bucket.
  function Namespace(digest: Digest, o: Store.Owner): string
  {
    if o.account == "" then ANONYMOUS_OWNER else AccountHash(digest, o.issuer, o.account)
  }

  function OwnerId(id: Auth.Identity): Store.Owner { Store.Owner(id.subject, id.issuer) }

  // ------------------------------------------------------- what can be signed

  // The rest of a presign request and of what DeriveKey draws for it.
  datatype Source = Source(placeName: string, filename: string, stamp: Stamp, random: seq<Byte>)

  function RequestOf(g: Grant, w: Source): Request { Request(w.filename, g.maxSize, g.contentType) }

  function DerivationOf(p: Place, id: Auth.Identity, req: Request, stamp: Stamp, random: Option<seq<Byte>>): Derivation
  {
    Derivation(p, id.subject, id.issuer, id.anonymous, req, stamp, random)
  }

  // Registry r lets id be presigned g: the place resolves and validates, derives
  // this key, and the driver takes it.
  predicate IssuedBy(r: Registry, digest: Digest, id: Auth.Identity, g: Grant, w: Source)
  {
    && Auth.WellFormed(id) && IsInt64(g.maxSize) && ValidKey(g.key)
    && w.filename != "" && ValidStamp(w.stamp) && |w.random| == 6
    && Resolve(r, w.placeName).Ok?
    && var p := Resolve(r, w.placeName).value;
       && Validate(p, RequestOf(g, w), id.anonymous).None?
       && DeriveKey(DerivationOf(p, id, RequestOf(g, w), w.stamp, Some(w.random)), digest) == Ok(g.key)
  }

  ghost predicate Issuable(r: Registry, digest: Digest, id: Auth.Identity, g: Grant)
  {
    exists w: Source :: IssuedBy(r, digest, id, g, w)
  }

  lemma IssuedShape(r: Registry, digest: Digest, id: Auth.Identity, g: Grant, w: Source)
    requires IssuedBy(r, digest, id, g, w)
    ensures OwnerOf(g.key) == Namespace(digest, OwnerId(id)) && g.maxSize > 0
    ensures IsDumpKey(g.key) <==> Resolve(r, w.placeName).value.strategy == STRATEGY_DUMP
    ensures !IsDumpKey(g.key) ==> Resolve(r, w.placeName).value.strategy == STRATEGY_ACCOUNT && !id.anonymous
  {
    var d := DerivationOf(Resolve(r, w.placeName).value, id, RequestOf(g, w), w.stamp, Some(w.random));
    KeyNamesItsOwner(d, digest);
    hide OwnerOf, IsDumpKey, UniqueOf, ValidKey, Sanitize, UniqueSegment, PathJoin;
  }

  lemma IssuableOwner(r: Registry, digest: Digest, id: Auth.Identity, g: Grant)
    requires Issuable(r, digest, id, g)
    ensures OwnerOf(g.key) == Namespace(digest, OwnerId(id)) && ValidKey(g.key) && 0 < g.maxSize <= MAX_INT64
    ensures !IsDumpKey(g.key) ==> !id.anonymous
  {
    hide IsDumpKey, OwnerOf;
    var w: Source :| IssuedBy(r, digest, id, g, w);
    IssuedShape(r, digest, id, g, w);
  }

  // A place whose keys the driver accepts.
  predicate CanGrant(p: Place)
  {
    && (p.strategy == STRATEGY_DUMP || p.strategy == STRATEGY_ACCOUNT)
    && !Rooted(p.prefix) && ".." !in CleanSegs(p.prefix)
  }

  // A place that requests can name, by its name or as the default.
  predicate Granting(r: Registry, name: string)
  {
    name != "" && name in r.places && CanGrant(r.places[name])
  }

  predicate Permits(p: Place, contentType: string) { p.allowedMime == [] || contentType in p.allowedMime }

  predicate Admissible(p: Place, size: int)
  {
    0 < size <= MAX_INT64 && (p.maxSize <= 0 || size <= p.maxSize)
  }

  // Such a place signs every type and size that its policy lets through, for
  // every identified caller.
  lemma PlaceGrants(r: Registry, digest: Digest, id: Auth.Identity, size: int, contentType: string, w: Source)
    returns (g: Grant)
    requires Granting(r, w.placeName) && Auth.WellFormed(id) && !id.anonymous
    requires Admissible(r.places[w.placeName], size) && Permits(r.places[w.placeName], contentType)
    requires w.filename != "" && ValidStamp(w.stamp) && |w.random| == 6
    ensures g.maxSize == size && g.contentType == contentType && IssuedBy(r, digest, id, g, w)
    ensures IsDumpKey(g.key) <==> r.places[w.placeName].strategy == STRATEGY_DUMP
  {
    var p := r.places[w.placeName];
    var d := DerivationOf(p, id, Request(w.filename, size, contentType), w.stamp, Some(w.random));
    DerivedKeyValidExactly(d, digest);
    hide ValidKey, Sanitize, UniqueSegment, PathJoin, OwnerSegment, IsDumpKey;
    g := Grant(DeriveKey(d, digest).value, size, contentType);
    IssuedShape(r, digest, id, g, w);
  }

  // What is signed comes from a place of that kind.
  lemma GrantedPlace(r: Registry, digest: Digest, id: Auth.Identity, g: Grant, w: Source) returns (name: string)
    requires IssuedBy(r, digest, id, g, w)
    ensures Granting(r, name) && Permits(r.places[name], g.contentType) && Admissible(r.places[name], g.maxSize)
    ensures Resolve(r, w.placeName) == Ok(r.places[name])
  {
    name := if w.placeName == "" then r.defaultName else w.placeName;
    var d := DerivationOf(r.places[name], id, RequestOf(g, w), w.stamp, Some(w.random));
    DerivedKeyValidExactly(d, digest);
    hide ValidKey, Sanitize, UniqueSegment, PathJoin, OwnerSegment;
  }

  // ------------------------------------------- numerals on lines of a prefix

  // A line of its own in the middle of a segment.
  predicate InnerNumeral(seg: string)
  {
    exists i :: 1 <= i < |Lines(seg)| - 1 && IsNumeral(Lines(seg)[i])
  }

  lemma NumeralNoSlash(line: string)
    requires IsNumeral(line)
    ensures '/' !in line
  {
    assert !IsDigit('/');
  }

  lemma GlueNumerals(a: string, b: string)
    ensures NumeralTail(a + "/" + b) <==> InnerNumeral(a) || NumeralTail(b)
  {
    GlueKeepsNumerals(a, b);
    GlueAddsNoNumerals(a, b);
  }

  lemma GlueAddsNoNumerals(a: string, b: string)
    ensures NumeralTail(a + "/" + b) ==> InnerNumeral(a) || NumeralTail(b)
  {
    hide IsNumeral, Split;
    SplitGlue(a, "/", b, '\n');
    var la, lb, all := Lines(a), Lines(b), Lines(a + "/" + b);
    assert '/' in all[|la| - 1];
    forall i | 1 <= i < |all| && IsNumeral(all[i]) ensures InnerNumeral(a) || NumeralTail(b) {
      NumeralNoSlash(all[i]);
      if i < |la| { assert all[i] == la[i]; } else { assert all[i] == lb[i - |la| + 1]; }
    }
  }

  lemma GlueKeepsNumerals(a: string, b: string)
    ensures InnerNumeral(a) || NumeralTail(b) ==> NumeralTail(a + "/" + b)
  {
    hide IsNumeral, Split;
    SplitGlue(a, "/", b, '\n');
    var la, lb, all := Lines(a), Lines(b), Lines(a + "/" + b);
    forall i | 1 <= i < |la| - 1 && IsNumeral(la[i]) ensures NumeralTail(a + "/" + b) { assert all[i] == la[i]; }
    forall i | 1 <= i < |lb| && IsNumeral(lb[i]) ensures NumeralTail(a + "/" + b) { assert all[i + |la| - 1] == lb[i]; }
  }

  // Only whole lines inside a segment can be numerals, and none in plain tails.
  lemma {:induction false} JoinNumerals(segs: seq<string>, tail: seq<string>)
    requires tail != [] && forall s :: s in tail ==> '\n' !in s
    ensures NumeralTail(Join(segs + tail, '/')) <==> exists s :: s in segs && InnerNumeral(s)
    decreases |segs|
  {
    if segs == [] {
      assert segs + tail == tail;
      JoinAvoids(tail, '/', '\n');
      SplitSingle(Join(tail, '/'), '\n');
    } else {
      assert (segs + tail)[1..] == segs[1..] + tail;
      JoinNumerals(segs[1..], tail);
      hide NumeralTail, InnerNumeral;
      GlueNumerals(segs[0], Join(segs[1..] + tail, '/'));
      assert Join(segs + tail, '/') == segs[0] + "/" + Join(segs[1..] + tail, '/');
      assert forall s :: s in segs <==> s == segs[0] || s in segs[1..];
    }
  }

  predicate ClearPrefix(prefix: string) { forall s :: s in CleanSegs(prefix) ==> !InnerNumeral(s) }

  lemma KeyNumerals(d: Derivation, digest: Digest)
    requires DeriveKey(d, digest).Ok? && !Rooted(d.place.prefix)
    ensures NumeralTail(DeriveKey(d, digest).value) <==> !ClearPrefix(d.place.prefix)
  {
    TailPlain(d, digest);
    KeySegments(d, digest);
    hide NumeralTail, InnerNumeral, DeriveKey, DerivedTail, CleanSegs;
    JoinNumerals(CleanSegs(d.place.prefix), DerivedTail(d, digest));
    JoinOfSplit(DeriveKey(d, digest).value, '/');
  }

  // --------------------------------------- the condition for one reading only

  predicate ClearPlace(p: Place)
  {
    ClearPrefix(p.prefix) && p.allowedMime != [] && forall t :: t in p.allowedMime ==> !NumeralLine(t)
  }

  // Every place whose keys the driver accepts restricts its types to ones
  // without a numeral on a line before the last, and has no prefix with a
  // numeral on a line of its own.
  predicate Clear(r: Registry) { forall n :: n in r.places && Granting(r, n) ==> ClearPlace(r.places[n]) }

  const USER := Auth.Identity("u", "i", Auth.MethodOIDC, false, false)

  function Plainly(name: string): Source { Source(name, "f", Stamp(2026, 1, 1, 0, 0, 0, 0), [0, 0, 0, 0, 0, 0]) }

  lemma NumeralInside(text: string, n: int)
    requires IsInt64(n)
    ensures NumeralLine(text + "\n" + Format(n) + "\n")
  {
    hide Format;
    var size := Format(n);
    ParseFormat(n);
    FormatOneLine(n);
    SplitSingle(size, '\n');
    SplitConcat(text, size + "\n", '\n');
    SplitConcat(size, "", '\n');
    assert text + "\n" + size + "\n" == text + ['\n'] + (size + "\n");
    assert size + "\n" == size + ['\n'] + "";
    var all := Lines(text + "\n" + size + "\n");
    assert all == Lines(text) + [size, ""];
    assert all[|Lines(text)|] == size;
  }

  lemma WorstType(p: Place) returns (t: string)
    requires !ClearPlace(p)
    ensures Permits(p, t) && (ClearPrefix(p.prefix) ==> NumeralLine(t))
  {
    hide ClearPrefix, NumeralLine;
    if t' :| t' in p.allowedMime && NumeralLine(t') {
      t := t';
    } else if p.allowedMime == [] {
      NumeralInside("", 0);
      t := "" + "\n" + Format(0) + "\n";
    } else {
      t := p.allowedMime[0];
    }
  }

  // An ambiguous grant of a place that is not clear.
  lemma UnclearGrant(r: Registry, digest: Digest, name: string) returns (g: Grant)
    requires Granting(r, name) && !ClearPlace(r.places[name])
    ensures IssuedBy(r, digest, USER, g, Plainly(name)) && Ambiguous(g) && g.maxSize == 1
  {
    hide ClearPlace, Permits, ClearPrefix, NumeralLine, NumeralTail, ValidKey, IsDumpKey, OwnerOf, DeriveKey, Validate;
    var p, w := r.places[name], Plainly(name);
    var t := WorstType(p);
    g := PlaceGrants(r, digest, USER, 1, t, w);
    KeyNumerals(DerivationOf(p, USER, RequestOf(g, w), w.stamp, Some(w.random)), digest);
  }

  // Everything a registry can sign has one reading exactly when it is clear.
  lemma GrantsClearExactly(r: Registry, digest: Digest)
    ensures (forall id, g :: Issuable(r, digest, id, g) ==> !Ambiguous(g)) <==> Clear(r)
  {
    hide Ambiguous, IssuedBy, Granting, ClearPlace;
    if Clear(r) {
      forall id, g | Issuable(r, digest, id, g) ensures !Ambiguous(g) {
        var w: Source :| IssuedBy(r, digest, id, g, w);
        ClearGrant(r, digest, id, g, w);
      }
    } else {
      var n :| n in r.places && Granting(r, n) && !ClearPlace(r.places[n]);
      var g := UnclearGrant(r, digest, n);
      assert Issuable(r, digest, USER, g);
    }
  }

  lemma ClearGrant(r: Registry, digest: Digest, id: Auth.Identity, g: Grant, w: Source)
    requires IssuedBy(r, digest, id, g, w) && Clear(r)
    ensures !Ambiguous(g)
  {
    var name := GrantedPlace(r, digest, id, g, w);
    assert ClearPlace(r.places[name]);
    KeyNumerals(DerivationOf(r.places[name], id, RequestOf(g, w), w.stamp, Some(w.random)), digest);
    hide NumeralTail, NumeralLine, ClearPrefix, DeriveKey, ValidKey;
  }
}
