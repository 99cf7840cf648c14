/** Signed upload capabilities: canonical form, signing and verification. */
module Capabilities {
  import opened Wrappers
  import opened Text
  import opened Decimal

  const SECOND: int := 1_000_000_000

  // Times are integer nanoseconds since the Unix epoch.
  datatype Capability = Capability(key: string, maxSize: int, contentType: string, expires: int)

  // time.Time.Unix: whole seconds, rounded down.
  function Unix(t: int): int { t / SECOND }

  predicate Representable(c: Capability)
  {
    IsInt64(c.maxSize) && IsInt64(Unix(c.expires))
  }

  function Truncated(c: Capability): Capability
  {
    c.(expires := Unix(c.expires) * SECOND)
  }

  // What a capability permits, its expiry apart.
  datatype Grant = Grant(key: string, maxSize: int, contentType: string)

  function GrantOf(c: Capability): Grant { Grant(c.key, c.maxSize, c.contentType) }

  // The string the MAC is computed over.
  function Canonical(c: Capability): string
  {
    c.key + "\n" + Format(c.maxSize) + "\n" + c.contentType + "\n" + Format(Unix(c.expires))
  }

  // An ideal MAC: a tag is the message it authenticates, or something that
  // authenticates nothing.
  datatype Tag = MacOf(message: string) | Bogus

  datatype Query = Query(exp: string, size: string, ct: string, sig: Tag)

  datatype VerifyError = BadCapability | BadSignature | Expired

  function SignUpload(c: Capability): Query
  {
    Query(Format(Unix(c.expires)), Format(c.maxSize), c.contentType, MacOf(Canonical(c)))
  }

  function VerifyUpload(key: string, q: Query, now: int): Result<Capability, VerifyError>
  {
    var exp := ParseInt64(q.exp);
    var size := ParseInt64(q.size);
    if exp.None? || size.None? then Err(BadCapability)
    else
      var c := Capability(key, size.value, q.ct, exp.value * SECOND);
      if MacOf(Canonical(c)) != q.sig then Err(BadSignature)
      else if now > c.expires then Err(Expired)
      else Ok(c)
  }

  // What verification accepts stands on its own tag and has not expired.
  lemma VerifiedCarriesTag(key: string, q: Query, now: int)
    requires VerifyUpload(key, q, now).Ok?
    ensures var c := VerifyUpload(key, q, now).value;
            c.key == key && Representable(c) && Truncated(c) == c
            && q.sig == MacOf(Canonical(c)) && now <= c.expires
  {
    hide ParseInt64, Format;
  }

  // Signing then verifying gives the capability back, its expiry cut to the
  // second, exactly until that second has passed.
  lemma SignThenVerify(c: Capability, now: int)
    requires Representable(c)
    ensures VerifyUpload(c.key, SignUpload(c), now)
            == if now > Unix(c.expires) * SECOND then Err(Expired) else Ok(Truncated(c))
  {
    hide Format, ParseInt64;
    ParseFormat(c.maxSize);
    ParseFormat(Unix(c.expires));
    assert Canonical(Truncated(c)) == Canonical(c);
  }

  // ------------------------------------------------------------- unambiguity

  function Lines(s: string): (r: seq<string>)
    ensures |r| >= 1
  {
    Split(s, '\n')
  }

  lemma FormatOneLine(n: int)
    ensures '\n' !in Format(n)
  {
    forall c | c in Format(n) ensures c != '\n' { assert !IsDigit('\n'); }
  }

  // The canonical string up to the expiry.
  function SignedText(g: Grant): string { g.key + "\n" + Format(g.maxSize) + "\n" + g.contentType }

  lemma CanonicalOfText(c: Capability)
    ensures Canonical(c) == SignedText(GrantOf(c)) + "\n" + Format(Unix(c.expires))
  {
  }

  lemma TextLines(g: Grant)
    ensures Lines(SignedText(g)) == Lines(g.key) + [Format(g.maxSize)] + Lines(g.contentType)
  {
    var size := Format(g.maxSize);
    FormatOneLine(g.maxSize);
    SplitSingle(size, '\n');
    assert SignedText(g) == (g.key + "\n" + size) + ['\n'] + g.contentType;
    SplitConcat(g.key + "\n" + size, g.contentType, '\n');
    assert g.key + "\n" + size == g.key + ['\n'] + size;
    SplitConcat(g.key, size, '\n');
  }

  // Two capabilities have one canonical string exactly when they expire in one
  // second and their grants have one text.
  lemma SameCanonicalExactly(c: Capability, d: Capability)
    ensures Canonical(c) == Canonical(d)
       <==> SignedText(GrantOf(c)) == SignedText(GrantOf(d)) && Unix(c.expires) == Unix(d.expires)
  {
    CanonicalOfText(c);
    CanonicalOfText(d);
    hide Canonical, SignedText, Format, GrantOf, Unix;
    if Canonical(c) == Canonical(d) {
      SameLastLine(SignedText(GrantOf(c)), Unix(c.expires), SignedText(GrantOf(d)), Unix(d.expires));
    }
  }

  lemma SameLastLine(a: string, m: int, b: string, n: int)
    requires a + "\n" + Format(m) == b + "\n" + Format(n)
    ensures a == b && m == n
  {
    hide Format, Split;
    LastLine(a, m);
    LastLine(b, n);
    FormatInjective(m, n);
    assert a + "\n" + Format(m) == a + ("\n" + Format(m)) && b + "\n" + Format(n) == b + ("\n" + Format(n));
    SameFront(a, b, "\n" + Format(m));
  }

  lemma LastLine(text: string, n: int)
    ensures Lines(text + "\n" + Format(n))[|Lines(text + "\n" + Format(n))| - 1] == Format(n)
  {
    hide Format, Split;
    FormatOneLine(n);
    SplitSingle(Format(n), '\n');
    assert text + "\n" + Format(n) == text + ['\n'] + Format(n);
    SplitConcat(text, Format(n), '\n');
  }

  lemma SameFront(a: string, b: string, end: string)
    requires a + end == b + end
    ensures a == b
  {
    assert |a| == |b|;
    assert (a + end)[..|a|] == a && (b + end)[..|b|] == b;
  }

  // h is a reading of what is signed for g.
  predicate Reads(h: Grant, g: Grant) { IsInt64(h.maxSize) && SignedText(h) == SignedText(g) }

  // A line that reads as a printed 64-bit number.
  predicate IsNumeral(line: string)
  {
    ParseInt64(line).Some? && Format(ParseInt64(line).value) == line
  }

  // A line of the text that can be taken for the size.
  predicate SizeLine(g: Grant, m: nat)
  {
    1 <= m < |Lines(SignedText(g))| - 1 && IsNumeral(Lines(SignedText(g))[m])
  }

  function ReadingAt(g: Grant, m: nat): Grant
    requires SizeLine(g, m)
  {
    var all := Lines(SignedText(g));
    Grant(Join(all[..m], '\n'), ParseInt64(all[m]).value, Join(all[m + 1..], '\n'))
  }

  lemma SameLinesSameText(a: string, b: string)
    requires Lines(a) == Lines(b)
    ensures a == b
  {
    JoinOfSplit(a, '\n');
    JoinOfSplit(b, '\n');
  }

  // A reading is found again at the line of its size.
  lemma ReadingPlaced(h: Grant, g: Grant)
    requires Reads(h, g)
    ensures SizeLine(g, |Lines(h.key)|) && h == ReadingAt(g, |Lines(h.key)|)
  {
    TextLines(h);
    ParseFormat(h.maxSize);
    JoinOfSplit(h.key, '\n');
    JoinOfSplit(h.contentType, '\n');
    var m, all := |Lines(h.key)|, Lines(SignedText(g));
    assert all[..m] == Lines(h.key) && all[m + 1..] == Lines(h.contentType);
  }

  lemma ReadingReads(g: Grant, m: nat)
    requires SizeLine(g, m)
    ensures Reads(ReadingAt(g, m), g) && |Lines(ReadingAt(g, m).key)| == m
  {
    var all, h := Lines(SignedText(g)), ReadingAt(g, m);
    PartsOfLines(SignedText(g), m);
    hide Split, Join, Format, ParseInt64, SignedText;
    TextLines(h);
    assert Lines(SignedText(h)) == all;
    SameLinesSameText(SignedText(h), SignedText(g));
  }

  lemma PartsOfLines(text: string, m: nat)
    requires 1 <= m < |Lines(text)| - 1
    ensures var all := Lines(text);
            && Lines(Join(all[..m], '\n')) == all[..m] && Lines(Join(all[m + 1..], '\n')) == all[m + 1..]
            && all[..m] + [all[m]] + all[m + 1..] == all
  {
    hide Join;
    var all := Lines(text);
    assert forall l :: l in all[..m] ==> l in all;
    assert forall l :: l in all[m + 1..] ==> l in all;
    SplitOfJoin(all[..m], '\n');
    SplitOfJoin(all[m + 1..], '\n');
  }

  // All readings of a signed grant: one for each line, but the first and the
  // last, that is a numeral.
  lemma ReadingsExactly(h: Grant, g: Grant)
    ensures Reads(h, g) <==> exists m: nat :: SizeLine(g, m) && h == ReadingAt(g, m)
  {
    if Reads(h, g) {
      ReadingPlaced(h, g);
    } else if m: nat :| SizeLine(g, m) && h == ReadingAt(g, m) {
      ReadingReads(g, m);
    }
  }

  // A key with a numeral on a line other than its first.
  predicate NumeralTail(key: string)
  {
    exists i :: 1 <= i < |Lines(key)| && IsNumeral(Lines(key)[i])
  }

  // A content type with a numeral on a line other than its last.
  predicate NumeralLine(contentType: string)
  {
    exists i :: 0 <= i < |Lines(contentType)| - 1 && IsNumeral(Lines(contentType)[i])
  }

  predicate Ambiguous(g: Grant) { NumeralTail(g.key) || NumeralLine(g.contentType) }

  // The exact condition on what is signed: it stands for no other grant, under
  // any key, if and only if no line of its key but the first, and no line of its
  // content type but the last, is a numeral.
  lemma UnambiguousExactly(g: Grant)
    requires IsInt64(g.maxSize)
    ensures (forall h :: Reads(h, g) ==> h == g) <==> !Ambiguous(g)
  {
    hide Split, Join, Format, ParseInt64, SignedText, ReadingAt;
    TextLines(g);
    var k, t := |Lines(g.key)|, Lines(g.contentType);
    assert Reads(g, g);
    if NumeralTail(g.key) {
      var i :| 1 <= i < k && IsNumeral(Lines(g.key)[i]);
      ReadingReads(g, i);
    } else if NumeralLine(g.contentType) {
      var i :| 0 <= i < |t| - 1 && IsNumeral(t[i]);
      assert Lines(SignedText(g))[k + 1 + i] == t[i];
      ReadingReads(g, k + 1 + i);
    } else {
      forall h | Reads(h, g) ensures h == g {
        OnlyReading(h, g);
      }
    }
  }

  lemma OnlyReading(h: Grant, g: Grant)
    requires Reads(h, g) && IsInt64(g.maxSize) && !Ambiguous(g)
    ensures h == g
  {
    hide Split, Join, Format, ParseInt64, SignedText, IsNumeral;
    TextLines(g);
    ReadingPlaced(h, g);
    ReadingPlaced(g, g);
  }

  // With newline-free keys the canonical string determines the capability.
  lemma CanonicalInjective(c: Capability, d: Capability)
    requires '\n' !in c.key && '\n' !in d.key
    requires Canonical(c) == Canonical(d) && IsInt64(c.maxSize) && IsInt64(d.maxSize)
    ensures Truncated(c) == Truncated(d)
  {
    SameCanonicalExactly(c, d);
    SplitSingle(c.key, '\n');
    SplitSingle(d.key, '\n');
    ReadingPlaced(GrantOf(c), GrantOf(d));
    ReadingPlaced(GrantOf(d), GrantOf(d));
  }

  // Without that condition it does not: a content type can take the size, and
  // any text in front of another numeral, into the key.
  lemma CanonicalCollision(key: string, size: int, text: string, otherSize: int, rest: string)
    requires IsInt64(otherSize)
    ensures Reads(Grant(key + "\n" + Format(size) + "\n" + text, otherSize, rest),
                  Grant(key, size, text + "\n" + Format(otherSize) + "\n" + rest))
  {
  }

  // ------------------------------------------------ the checks of a proxied PUT

  datatype PutRefusal = Forbidden | Gone | WrongContentType | DeclaredTooLarge

  // Everything UploadHandler checks before it starts to write.
  function AdmitPut(key: string, q: Query, now: int, contentType: string, contentLength: int)
    : Result<Capability, PutRefusal>
  {
    var v := VerifyUpload(key, q, now);
    if v.Err? then Err(if v.error == Expired then Gone else Forbidden)
    else if v.value.contentType != "" && contentType != v.value.contentType then Err(WrongContentType)
    else if v.value.maxSize > 0 && contentLength > v.value.maxSize then Err(DeclaredTooLarge)
    else Ok(v.value)
  }

  lemma AdmittedKey(key: string, q: Query, now: int, contentType: string, contentLength: int)
    ensures AdmitPut(key, q, now, contentType, contentLength).Ok? ==>
              AdmitPut(key, q, now, contentType, contentLength).value.key == key
  {
  }

  // Each refusal, exactly: numbers that do not parse and tags of another string
  // are forbidden, then the whole second of the expiry, the type and the declared
  // length decide, in this order.
  lemma PutRefusedExactly(key: string, q: Query, now: int, contentType: string, contentLength: int)
    ensures var exp, size := ParseInt64(q.exp), ParseInt64(q.size);
            AdmitPut(key, q, now, contentType, contentLength)
            == if exp.None? || size.None?
                  || q.sig != MacOf(key + "\n" + Format(size.value) + "\n" + q.ct + "\n" + Format(exp.value))
               then Err(Forbidden)
               else if now > exp.value * 1_000_000_000 then Err(Gone)
               else if q.ct != "" && contentType != q.ct then Err(WrongContentType)
               else if size.value > 0 && contentLength > size.value then Err(DeclaredTooLarge)
               else Ok(Capability(key, size.value, q.ct, exp.value * 1_000_000_000))
  {
    hide ParseInt64, Format;
  }

  // A signed grant is admitted exactly until its second has passed, for its
  // content type (any, if none was named) and for declared lengths it covers.
  lemma GrantAdmitsExactly(c: Capability, now: int, contentType: string, contentLength: int)
    requires Representable(c) && c.maxSize > 0
    ensures AdmitPut(c.key, SignUpload(c), now, contentType, contentLength) == Ok(Truncated(c))
       <==> now <= Unix(c.expires) * SECOND && contentLength <= c.maxSize
            && (c.contentType == "" || contentType == c.contentType)
  {
    SignThenVerify(c, now);
    hide VerifyUpload, SignUpload;
  }
}
