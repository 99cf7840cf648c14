/** The fs driver's key checks: validateKey and diskPath. */
module ObjectKeys {
  import opened Wrappers
  import opened Text
  import opened Paths

  // What validateKey accepts: a relative key of ordinary segments only.
  predicate ValidKey(key: string) { AllPlain(Split(key, '/')) }

  method ValidateKey(key: string) returns (ok: bool)
    ensures ok <==> ValidKey(key)
  {
    var segs := Split(key, '/');
    if key == "" || key[0] == '/' {
      assert segs[0] == "" && segs[0] in segs;
      return false;
    }
    for i := 0 to |segs|
      invariant forall j :: 0 <= j < i ==> Plain(segs[j])
    {
      if segs[i] == "" || segs[i] == "." || segs[i] == ".." {
        assert segs[i] in segs;
        return false;
      }
    }
    return true;
  }

  function DiskPath(root: string, key: string): Option<string>
  {
    var clean := Clean("/" + key);
    if clean == "/" then None
    else
      var p := PathJoin([root, clean]);
      if p != root && !(root + "/" <= p) then None else Some(p)
  }

  // The segments below the root that a key string denotes.
  function Below(key: string): seq<string> { CleanSegs("/" + key) }

  lemma BelowPlain(key: string)
    ensures AllPlain(Below(key))
    ensures Clean("/" + key) == "/" + Join(Below(key), '/')
  {
    CleanSegsCleaned("/" + key);
  }

  lemma JoinRoot(root: string, segs: seq<string>)
    requires CleanAbsolute(root) && AllPlain(segs) && segs != []
    ensures PathJoin([root, "/" + Join(segs, '/')]) == "/" + Join(CleanSegs(root) + segs, '/')
  {
    var joined := Join(segs, '/');
    var rest := "/" + joined;
    var whole := root + "/" + rest;
    assert DropEmpty([root, rest]) == [root, rest];
    assert [root, rest][1..] == [rest];
    assert Join([root, rest], '/') == root + ['/'] + rest == whole;
    SplitConcat(root, rest, '/');
    SplitOfJoin(segs, '/');
    assert rest[1..] == joined;
    assert Split(rest, '/') == [""] + segs;
    FoldConcat(true, [], Split(root, '/'), [""] + segs);
    assert ([""] + segs)[1..] == segs;
    FoldPlain(true, CleanSegs(root), segs);
  }

  // Containment: for every key string, diskPath fails or lands strictly below
  // the root, and it fails only for keys that clean to nothing or for root "/".
  lemma DiskPathExact(root: string, key: string)
    requires CleanAbsolute(root)
    ensures DiskPath(root, key).Some? <==> root != "/" && Below(key) != []
    ensures DiskPath(root, key).Some? ==>
              DiskPath(root, key).value == root + "/" + Join(Below(key), '/') && AllPlain(Below(key))
  {
    var segs := Below(key);
    BelowPlain(key);
    AbsoluteSegs(root);
    if segs != [] {
      assert segs[0] in segs;
      JoinHead(segs);
      JoinRoot(root, segs);
      if CleanSegs(root) != [] {
        assert CleanSegs(root)[0] in CleanSegs(root);
        JoinHead(CleanSegs(root));
        JoinConcat(CleanSegs(root), segs, '/');
        assert "/" + (Join(CleanSegs(root), '/') + ['/'] + Join(segs, '/')) == root + "/" + Join(segs, '/');
        var p := root + "/" + Join(segs, '/');
        assert p[..|root| + 1] == root + "/";
      } else {
        assert CleanSegs(root) + segs == segs;
        assert root == "/";
        var p := "/" + Join(segs, '/');
        assert p[1] == Join(segs, '/')[0] != '/';
        assert !("//" <= p);
      }
    } else {
      assert Join(segs, '/') == "";
    }
  }

  // The file a key denotes, by its path below the root: what the driver writes,
  // whether or not the key is valid.
  function FileOf(key: string): Option<string>
  {
    if Below(key) == [] then None else Some(Join(Below(key), '/'))
  }

  lemma DiskPathIsFile(root: string, key: string)
    requires CleanAbsolute(root) && root != "/"
    ensures DiskPath(root, key) == if FileOf(key).None? then None else Some(root + "/" + FileOf(key).value)
  {
    DiskPathExact(root, key);
  }

  // Files are named by valid keys; a valid key names its own file.
  lemma FileIsValidKey(key: string)
    requires FileOf(key).Some?
    ensures ValidKey(FileOf(key).value)
  {
    BelowPlain(key);
    SplitOfJoin(Below(key), '/');
  }

  lemma ValidKeyFile(key: string)
    requires ValidKey(key)
    ensures FileOf(key) == Some(key)
  {
    var segs := Split(key, '/');
    assert ("/" + key)[1..] == key;
    assert Split("/" + key, '/') == [""] + segs;
    assert ([""] + segs)[1..] == segs;
    FoldPlain(true, [], segs);
    assert Below(key) == [] + segs == segs;
    JoinOfSplit(key, '/');
  }

  // On valid keys the mapping is the identity below the root.
  lemma DiskPathFaithful(root: string, key: string)
    requires CleanAbsolute(root) && root != "/" && ValidKey(key)
    ensures DiskPath(root, key) == Some(root + "/" + key)
  {
    ValidKeyFile(key);
    DiskPathIsFile(root, key);
  }

  lemma DistinctKeysDistinctFiles(root: string, k1: string, k2: string)
    requires CleanAbsolute(root) && root != "/" && ValidKey(k1) && ValidKey(k2)
    requires k1 != k2
    ensures DiskPath(root, k1).Some? && DiskPath(root, k2).Some?
    ensures DiskPath(root, k1).value != DiskPath(root, k2).value
  {
    DiskPathFaithful(root, k1);
    DiskPathFaithful(root, k2);
    assert (root + "/" + k1)[|root| + 1..] == k1;
    assert (root + "/" + k2)[|root| + 1..] == k2;
  }
}
