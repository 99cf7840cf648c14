/** Writing objects: the limited copy into a temp file and the rename over the
    destination, alone (class Disk) and interleaved with other writers, deletes
    and crashes (the step machine). */
module Transfers {
  import opened Wrappers
  import opened Text
  import opened Paths
  import opened Decimal
  import opened Places
  import opened ObjectKeys

  type Bytes = seq<Byte>

  datatype WriteError = InvalidKey | IOError | ObjectTooLarge

  // An io.Reader: the chunks its Read calls deliver, then EOF or a failure.
  datatype Reader = Reader(chunks: seq<Bytes>, fails: bool)

  function Body(chunks: seq<Bytes>): Bytes
  {
    if chunks == [] then [] else Body(chunks[..|chunks| - 1]) + chunks[|chunks| - 1]
  }

  // io.LimitReader(r, maxSize+1), in int64 arithmetic; None when maxSize is not
  // positive and the copy is unlimited.
  function ByteLimit(maxSize: int): Option<int>
  {
    if maxSize > 0 then Some(Wrap64(maxSize + 1)) else None
  }

  // What io.Copy passes on of a body.
  function Copied(limit: Option<int>, body: Bytes): Bytes
  {
    match limit
    case None => body
    case Some(n) => if n <= 0 then [] else if |body| <= n then body else body[..n]
  }

  lemma CopyGrows(limit: Option<int>, body: Bytes, chunk: Bytes)
    requires limit.Some? ==> |Copied(limit, body)| < limit.value
    ensures Copied(limit, body + chunk) == Copied(limit, body) +
              if limit.Some? && |chunk| > limit.value - |Copied(limit, body)|
              then chunk[..limit.value - |Copied(limit, body)|] else chunk
  {
  }

  lemma CopyStops(limit: Option<int>, body: Bytes, n: nat)
    requires n <= |body|
    requires n < |body| ==> limit.Some? && |Copied(limit, body[..n])| >= limit.value
    ensures Copied(limit, body[..n]) == Copied(limit, body)
  {
    if n == |body| { assert body[..n] == body; }
  }

  // The check after the copy.
  predicate Fits(maxSize: int, copied: Bytes) { !(maxSize > 0 && |copied| > maxSize) }

  // Whether the copy reaches the reader's failure: not once the limit is used up.
  predicate SeesFailure(maxSize: int, r: Reader)
  {
    r.fails && (ByteLimit(maxSize).Some? ==> |Body(r.chunks)| < ByteLimit(maxSize).value)
  }

  // The outcome of one undisturbed write: the bytes to rename into place, or why not.
  function Outcome(maxSize: int, r: Reader): Result<Bytes, WriteError>
  {
    var copied := Copied(ByteLimit(maxSize), Body(r.chunks));
    if SeesFailure(maxSize, r) then Err(IOError)
    else if !Fits(maxSize, copied) then Err(ObjectTooLarge)
    else Ok(copied)
  }

  // All or nothing, exactly: for every 64-bit size limit, each write that is
  // accepted stores the reader's whole body, and what is stored respects a
  // positive limit, if and only if maxSize+1 does not overflow.
  lemma AcceptedIsWholeExactly(maxSize: int)
    requires IsInt64(maxSize)
    ensures (forall r: Reader :: Outcome(maxSize, r).Ok? ==> Outcome(maxSize, r).value == Body(r.chunks))
            <==> maxSize != MAX_INT64
  {
    if maxSize == MAX_INT64 {
      var r := Reader([[1]], false);
      assert Body([[1]]) == [1] by { assert [[1]][..0] == []; assert Body([]) == []; }
      assert Outcome(maxSize, r) == Ok([]);
    }
  }

  // Whether a write is accepted, for every limit that does not overflow: an
  // over-long body is refused even when its reader fails behind the limit.
  lemma AcceptedExactly(maxSize: int, r: Reader)
    requires IsInt64(maxSize) && maxSize != MAX_INT64
    ensures Outcome(maxSize, r) ==
              if maxSize > 0 && |Body(r.chunks)| > maxSize then Err(ObjectTooLarge)
              else if r.fails then Err(IOError)
              else Ok(Body(r.chunks))
  {
  }

  // ---------------------------------------------------------- names on disk

  function LastSegment(p: string): string
  {
    Split(p, '/')[|Split(p, '/')| - 1]
  }

  // Paths of objects end in a sanitized file name.
  predicate ObjectPath(p: string) { SafeName(LastSegment(p)) }

  function ParentDir(p: string): string
  {
    var segs := Split(p, '/');
    Join(segs[..|segs| - 1], '/')
  }

  // os.CreateTemp(dir, ".upload-*"): the star becomes a random 64-bit number.
  function TempPath(dst: string, n: nat): string
  {
    ParentDir(dst) + "/.upload-" + Digits(n)
  }

  lemma {:induction false} DigitsLength(n: nat, w: nat)
    requires w >= 1 && n < Pow10(w)
    ensures |Digits(n)| <= w
  {
    if n >= 10 {
      assert Pow10(w) == 10 * Pow10(w - 1);
      assert w > 1 by { assert Pow10(1) == 10 * Pow10(0) == 10; }
      DigitsLength(n / 10, w - 1);
    }
  }

  lemma TwentyDigits()
    ensures TWO_64 <= Pow10(20)
  {
    assert Pow10(4) == 10_000 by { assert Pow10(2) == 100; }
    assert Pow10(8) == 100_000_000 by { assert Pow10(6) == 1_000_000; }
    assert Pow10(12) == 1_000_000_000_000 by { assert Pow10(10) == 10_000_000_000; }
    assert Pow10(16) == 10_000_000_000_000_000 by { assert Pow10(14) == 100_000_000_000_000; }
    assert Pow10(18) == 1_000_000_000_000_000_000;
  }

  lemma LastOfJoin(dir: string, name: string)
    requires '/' !in name
    ensures LastSegment(dir + "/" + name) == name
  {
    SplitSingle(name, '/');
    SplitConcat(dir, name, '/');
    assert dir + "/" + name == dir + ['/'] + name;
  }

  // A temp file is never an object: object names with a leading dot have exactly
  // 128 characters, temp names at most 28.
  lemma TempIsNoObject(dst: string, n: nat)
    requires n < TWO_64
    ensures !ObjectPath(TempPath(dst, n))
  {
    hide Digits, ParentDir, LastSegment;
    var name := ".upload-" + Digits(n);
    TwentyDigits();
    DigitsLength(n, 20);
    hide Pow10;
    assert '/' !in name by { assert !IsDigit('/'); }
    LastOfJoin(ParentDir(dst), name);
    assert TempPath(dst, n) == ParentDir(dst) + "/" + name;
    assert name[0] == '.' && |name| <= 28;
  }

  // A temp file lies in the directory of its destination, so that the rename stays
  // within one file system.
  lemma TempBesideObject(dst: string, n: nat)
    requires '/' in dst
    ensures ParentDir(TempPath(dst, n)) == ParentDir(dst)
  {
    hide Digits;
    var name := ".upload-" + Digits(n);
    assert '/' !in name by { assert !IsDigit('/'); }
    var dir := ParentDir(dst);
    assert TempPath(dst, n) == dir + ['/'] + name;
    SplitSingle(name, '/');
    SplitConcat(dir, name, '/');
    JoinOfSplit(dir, '/');
    assert (Split(dir, '/') + [name])[..|Split(dir, '/') + [name]| - 1] == Split(dir, '/');
  }

  // Every object stored under a derived key is at an object path.
  lemma DerivedObjectPath(root: string, d: Derivation, digest: Digest)
    requires CleanAbsolute(root) && root != "/" && DeriveKey(d, digest).Ok?
    requires ValidKey(DeriveKey(d, digest).value)
    ensures DiskPath(root, DeriveKey(d, digest).value).Some?
    ensures ObjectPath(DiskPath(root, DeriveKey(d, digest).value).value)
  {
    var key := DeriveKey(d, digest).value;
    DiskPathFaithful(root, key);
    KeySegments(d, digest);
    SanitizeSafe(d.req.filename);
    SplitConcat(root, key, '/');
    assert root + "/" + key == root + ['/'] + key;
    var tail := DerivedTail(d, digest);
    assert LastSegment(root + "/" + key) == tail[|tail| - 1] == Sanitize(d.req.filename);
  }

  // ------------------------------------------------------ one writer at a time

  // Which of the system calls fail; they are the environment's choice.
  datatype Faults = Faults(mkdir: bool, createTemp: bool, rename: bool)

  class Disk {
    const root: string
    var files: map<string, Bytes>

    constructor (root: string)
      ensures this.root == root && files == map[]
    {
      this.root := root;
      files := map[];
    }

    // writeObject, its deferred removal of the temp file at every exit. `temp` is
    // the number CreateTemp draws; it opens with O_EXCL, so the name is not in
    // use. A temp file that is its own destination is removed after the rename;
    // TempIsNoObject excludes that for derived keys.
    method WriteObject(key: string, maxSize: int, r: Reader, temp: nat, faults: Faults)
      returns (res: Result<int, WriteError>)
      requires DiskPath(root, key).Some? ==> TempPath(DiskPath(root, key).value, temp) !in files
      modifies this`files
      ensures res == if DiskPath(root, key).None? then Err(InvalidKey)
                     else if faults.mkdir || faults.createTemp then Err(IOError)
                     else if Outcome(maxSize, r).Err? then Err(Outcome(maxSize, r).error)
                     else if faults.rename then Err(IOError)
                     else Ok(|Outcome(maxSize, r).value|)
      ensures res.Ok? ==>
                var dst := DiskPath(root, key).value;
                files == if TempPath(dst, temp) == dst then old(files)
                         else old(files)[dst := Outcome(maxSize, r).value]
      ensures res.Err? ==> files == old(files)
    {
      hide DiskPath, TempPath;
      var dst := DiskPath(root, key);
      if dst.None? {
        return Err(InvalidKey);
      }
      if faults.mkdir || faults.createTemp {
        return Err(IOError);
      }
      var tmp := TempPath(dst.value, temp);
      var n, failed := CopyBody(tmp, maxSize, r);
      assert files - {tmp} == old(files);
      if failed {
        files := files - {tmp};
        return Err(IOError);
      }
      if maxSize > 0 && n > maxSize {
        files := files - {tmp};
        return Err(ObjectTooLarge);
      }
      if faults.rename {
        files := files - {tmp};
        return Err(IOError);
      }
      files := (files - {tmp})[dst.value := files[tmp]];
      files := files - {tmp};
      assert tmp == dst.value ==> files == old(files);
      return Ok(n);
    }

    // io.Copy(tmp, io.LimitReader(r, maxSize+1)): read chunk by chunk until the
    // limit, the end of the body, or its failure.
    method CopyBody(tmp: string, maxSize: int, r: Reader) returns (n: int, failed: bool)
      requires tmp !in files
      modifies this`files
      ensures files == old(files)[tmp := Copied(ByteLimit(maxSize), Body(r.chunks))]
      ensures n == |files[tmp]|
      ensures failed <==> SeesFailure(maxSize, r)
    {
      var limit := ByteLimit(maxSize);
      files := files[tmp := []];
      var i := 0;
      assert r.chunks[..0] == [];
      while i < |r.chunks| && (limit.Some? ==> |files[tmp]| < limit.value)
        invariant 0 <= i <= |r.chunks|
        invariant tmp in files && files == old(files)[tmp := files[tmp]]
        invariant files[tmp] == Copied(limit, Body(r.chunks[..i]))
        decreases |r.chunks| - i
      {
        var chunk := r.chunks[i];
        assert r.chunks[..i + 1][..i] == r.chunks[..i];
        CopyGrows(limit, Body(r.chunks[..i]), chunk);
        if limit.Some? && |chunk| > limit.value - |files[tmp]| {
          chunk := chunk[..limit.value - |files[tmp]|];
        }
        files := files[tmp := files[tmp] + chunk];
        i := i + 1;
      }
      BodyPrefix(r.chunks, i);
      CopyStops(limit, Body(r.chunks), |Body(r.chunks[..i])|);
      n := |files[tmp]|;
      failed := r.fails && (limit.Some? ==> n < limit.value);
    }

    // DeleteObject: a missing file is not an error, another failure of os.Remove
    // is. What it then prunes is a directory, so no file goes with it.
    method DeleteObject(key: string, fault: bool) returns (ok: bool)
      modifies this`files
      ensures ok <==> ValidKey(key) && DiskPath(root, key).Some? && !fault
      ensures files == if ok then old(files) - {DiskPath(root, key).value} else old(files)
    {
      ok := ValidateKey(key);
      if ok {
        var p := DiskPath(root, key);
        if p.None? || fault {
          return false;
        }
        files := files - {p.value};
      }
    }
  }

  lemma {:induction false} BodyPrefix(chunks: seq<Bytes>, i: nat)
    requires i <= |chunks|
    ensures |Body(chunks[..i])| <= |Body(chunks)|
    ensures Body(chunks)[..|Body(chunks[..i])|] == Body(chunks[..i])
    ensures i == |chunks| ==> Body(chunks[..i]) == Body(chunks)
    decreases |chunks|
  {
    if i < |chunks| {
      var shorter := chunks[..|chunks| - 1];
      assert shorter[..i] == chunks[..i];
      BodyPrefix(shorter, i);
    } else {
      assert chunks[..i] == chunks;
    }
  }
}
