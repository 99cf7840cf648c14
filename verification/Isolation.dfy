/** Owner isolation and capability safety over every run of the gateway. */
module Isolation {
  import opened Wrappers
  import opened Decimal
  import opened Text
  import opened Paths
  import opened Timestamps
  import opened Places
  import opened ObjectKeys
  import opened Transfers
  import opened Gateway
  import opened Grants
  import opened Reach
  import C = Capabilities
  import Store
  import Auth

  predicate SameHash(c: Config, a: Owner, b: Owner)
  {
    AccountHash(c.digest, a.issuer, a.account) == AccountHash(c.digest, b.issuer, b.account)
  }

  // The truncated account hash tells these owners apart.
  predicate CollisionFree(c: Config, ids: set<Owner>)
  {
    forall a, b :: a in ids && b in ids && SameHash(c, a, b) ==> a == b
  }

  // The string the account hash is taken of.
  function Preimage(o: Owner): string { o.issuer + "\0" + o.account }

  lemma PreimageInjective(a: Owner, b: Owner)
    requires '\0' !in a.issuer && '\0' !in b.issuer && Preimage(a) == Preimage(b)
    ensures a == b
  {
    SplitConcat(a.issuer, a.account, '\0');
    SplitConcat(b.issuer, b.account, '\0');
    SplitSingle(a.issuer, '\0');
    SplitSingle(b.issuer, '\0');
    assert Split(Preimage(a), '\0')[0] == a.issuer == b.issuer;
    assert Preimage(a)[|a.issuer| + 1..] == a.account && Preimage(b)[|b.issuer| + 1..] == b.account;
  }

  // It suffices that the digest tells the preimages apart and issuers hold no
  // NUL.
  lemma CollisionFreeByDigest(c: Config, ids: set<Owner>)
    requires forall o :: o in ids ==> '\0' !in o.issuer
    requires forall a, b :: a in ids && b in ids && c.digest(Preimage(a)) == c.digest(Preimage(b)) ==>
               Preimage(a) == Preimage(b)
    ensures CollisionFree(c, ids)
  {
    forall a, b | a in ids && b in ids && SameHash(c, a, b)
      ensures a == b
    {
      HexInjective(c.digest(Preimage(a)), c.digest(Preimage(b)));
      PreimageInjective(a, b);
    }
  }

  predicate Caller(ids: set<Owner>, id: Identity)
  {
    Auth.WellFormed(id) && (!id.anonymous ==> OwnerId(id) in ids)
  }

  // What holds of the steps of any run: identities are as Auth resolves them and
  // among ids, sizes and times are 64-bit, and DeriveKey reads a calendar time
  // and draws six random bytes.
  predicate Proper(ids: set<Owner>, e: Step)
  {
    match e
    case Begin(_, id, _, req, _) => Caller(ids, id) && IsInt64(req.size)
    case Derive(_, stamp, random) => ValidStamp(stamp) && (random.Some? ==> |random.value| == 6)
    case DeleteRow(_, id, _) => Caller(ids, id)
    case WipeOwn(_, id, _) => Caller(ids, id)
    case WipeAny(_, id, _, _, _) => Caller(ids, id)
    case Advance(to) => to <= MAX_INT64
    case _ => true
  }

  // The place is one of the registry's, and its policy lets the request through.
  ghost predicate Passed(c: Config, id: Identity, place: Place, req: Request)
  {
    (exists name :: Resolve(c.registry, name) == Ok(place)) && Validate(place, req, id.anonymous).None?
  }

  ghost predicate IssueOk(c: Config, ids: set<Owner>, i: Issue)
  {
    Caller(ids, i.to) && Issuable(c.registry, c.digest, i.to, C.GrantOf(i.cap)) && C.Representable(i.cap)
  }

  // The string this capability is verified against was signed.
  ghost predicate Signed(issues: set<Issue>, cap: C.Capability)
  {
    exists i :: i in issues && C.Canonical(i.cap) == C.Canonical(cap)
  }

  ghost predicate FlightOk(c: Config, ids: set<Owner>, issues: set<Issue>, f: Flight)
  {
    match f
    case Checked(id, place, req, oneShot) => Caller(ids, id) && IsInt64(req.size) && Passed(c, id, place, req)
    case Keyed(id, key, req, oneShot) =>
      && Caller(ids, id) && IsInt64(req.size)
      && (ValidKey(key) ==> Issuable(c.registry, c.digest, id, C.Grant(key, req.size, req.contentType)))
    case Ready(id, key, row) =>
      && Caller(ids, id) && ValidKey(key) && OwnerOf(key) == Namespace(c.digest, OwnerId(id))
      && Store.OwnerOfRow(row) == OwnerId(id) && row.size >= 0
    case Putting(cap) => C.Representable(cap) && C.Truncated(cap) == cap && Signed(issues, cap)
    case Removing(account, issuer, keys) =>
      forall k :: k in keys ==> exists w :: Party(ids, w) && Targets(account, issuer, w) && Owned(c, k, w)
  }

  predicate Owned(c: Config, key: string, v: Owner) { OwnerOf(key) == Namespace(c.digest, v) }

  // Whose uploads a delete or wipe goes for; no issuer means any.
  predicate Targets(account: string, issuer: string, v: Owner)
  {
    v.account == account && (issuer == "" || v.issuer == issuer)
  }

  // An identified owner, or the one anonymous bucket.
  predicate Party(ids: set<Owner>, v: Owner)
  {
    (v in ids && v.account != "") || v == Store.Owner("", "")
  }

  predicate RowOk(c: Config, ids: set<Owner>, key: string, row: Store.Upload)
  {
    && OwnerOf(key) == Namespace(c.digest, Store.OwnerOfRow(row)) && row.size >= 0 && ValidKey(key)
    && Party(ids, Store.OwnerOfRow(row))
  }

  ghost predicate RowsOk(c: Config, ids: set<Owner>, rows: Store.Rows)
  {
    forall k :: k in rows ==> RowOk(c, ids, k, rows[k])
  }

  ghost predicate IssuesOk(c: Config, ids: set<Owner>, s: State)
  {
    && (forall i :: i in s.issues ==> IssueOk(c, ids, i))
    && (forall m :: m in s.signed ==> exists i :: i in s.issues && C.Canonical(i.cap) == m)
  }

  ghost predicate FlightsOk(c: Config, ids: set<Owner>, s: State)
  {
    forall rid :: rid in s.flights ==> FlightOk(c, ids, s.issues, s.flights[rid])
  }

  ghost predicate Inv(c: Config, ids: set<Owner>, s: State)
  {
    RowsOk(c, ids, s.rows) && IssuesOk(c, ids, s) && FlightsOk(c, ids, s) && 0 <= s.now <= MAX_INT64
  }

  // --------------------------------------------------- the invariant, by step

  lemma FlightsKept(c: Config, ids: set<Owner>, s: State, t: State, rid: nat)
    requires FlightsOk(c, ids, s) && s.issues <= t.issues
    requires t.flights == s.flights - {rid} ||
             (rid in t.flights && t.flights == s.flights[rid := t.flights[rid]]
              && FlightOk(c, ids, t.issues, t.flights[rid]))
    ensures FlightsOk(c, ids, t)
  {
    hide OwnerOf, ValidKey, Issuable, Passed, C.Canonical, C.Representable;
    forall r | r in t.flights ensures FlightOk(c, ids, t.issues, t.flights[r]) {
      if r in s.flights && t.flights[r] == s.flights[r] {
        assert FlightOk(c, ids, s.issues, s.flights[r]);
        if s.flights[r].Putting? {
          var i :| i in s.issues && C.Canonical(i.cap) == C.Canonical(s.flights[r].cap);
          assert i in t.issues;
        }
      }
    }
  }

  lemma DeriveKeeps(c: Config, ids: set<Owner>, s: State, e: Step)
    requires e.Derive? && Inv(c, ids, s) && Proper(ids, e)
    ensures Inv(c, ids, DoDerive(c, s, e))
  {
    hide Namespace, DeriveKey, WithDraw, OwnerOf, ValidKey, Issuable, Passed, ValidStamp, Signed, IssueOk, RowOk;
    var t := DoDerive(c, s, e);
    if t != s {
      var f := s.flights[e.rid];
      assert FlightOk(c, ids, s.issues, f);
      DerivedIssuable(c, f, e.stamp, e.random);
      FlightsKept(c, ids, s, t, e.rid);
    }
  }

  // A key that DeriveKey gives a checked request is one that could be signed for
  // it. A one-shot upload without a file name stands in for one named ".".
  lemma DerivedIssuable(c: Config, f: Flight, stamp: Stamp, random: Option<Bytes>)
    requires f.Checked? && Auth.WellFormed(f.id) && IsInt64(f.req.size) && Passed(c, f.id, f.place, f.req)
    requires ValidStamp(stamp) && (random.Some? ==> |random.value| == 6)
    ensures var key := DeriveKey(DerivationOf(f.place, f.id, f.req, stamp, random), c.digest);
            key.Ok? && ValidKey(key.value) ==>
              Issuable(c.registry, c.digest, f.id, C.Grant(key.value, f.req.size, f.req.contentType))
  {
    hide Sanitize, UniqueSegment, PathJoin, OwnerSegment, ValidKey;
    var key := DeriveKey(DerivationOf(f.place, f.id, f.req, stamp, random), c.digest);
    if key.Ok? && ValidKey(key.value) {
      var name :| Resolve(c.registry, name) == Ok(f.place);
      SanitizeDropsDots("");
      assert "." + "" == ".";
      var filename := if f.req.filename == "" then "." else f.req.filename;
      var w := Source(name, filename, stamp, if random.Some? then random.value else [0, 0, 0, 0, 0, 0]);
      assert IssuedBy(c.registry, c.digest, f.id, C.Grant(key.value, f.req.size, f.req.contentType), w);
    }
  }

  lemma SignKeeps(c: Config, ids: set<Owner>, s: State, e: Step)
    requires e.Sign? && Inv(c, ids, s)
    ensures Inv(c, ids, DoSign(s, e))
  {
    hide OwnerOf, ValidKey, C.Canonical, Issuable, Passed, Signed, Namespace, RowOk;
    var t := DoSign(s, e);
    if t != s {
      var f := s.flights[e.rid];
      assert FlightOk(c, ids, s.issues, f);
      if ValidKey(f.key) {
        IssuableOwner(c.registry, c.digest, f.id, C.Grant(f.key, f.req.size, f.req.contentType));
        var i := Issue(CapabilityFor(s, f), f.id);
        SignedIssue(c, ids, s, f, i);
        hide IssueOk;
        IssueAdded(c, ids, s, t, i);
      }
      FlightsKept(c, ids, s, t, e.rid);
    }
  }

  lemma IssueAdded(c: Config, ids: set<Owner>, s: State, t: State, i: Issue)
    requires IssuesOk(c, ids, s) && IssueOk(c, ids, i)
    requires t.issues == s.issues + {i} && t.signed == s.signed + {C.Canonical(i.cap)}
    ensures IssuesOk(c, ids, t)
  {
    hide C.Canonical, IssueOk, OwnerOf, ValidKey;
    forall m | m in t.signed ensures exists j :: j in t.issues && C.Canonical(j.cap) == m {
      if m in s.signed {
        var j :| j in s.issues && C.Canonical(j.cap) == m;
        assert j in t.issues;
      } else {
        assert i in t.issues;
      }
    }
  }

  lemma SignedIssue(c: Config, ids: set<Owner>, s: State, f: Flight, i: Issue)
    requires f.Keyed? && !f.oneShot && FlightOk(c, ids, s.issues, f) && ValidKey(f.key) && 0 <= s.now <= MAX_INT64
    requires i == Issue(CapabilityFor(s, f), f.id)
    ensures IssueOk(c, ids, i)
  {
    hide OwnerOf, ValidKey, Issuable;
    assert C.Unix(i.cap.expires) <= MAX_INT64;
  }

  lemma WriteKeeps(c: Config, ids: set<Owner>, s: State, e: Step)
    requires e.Write? && Inv(c, ids, s)
    ensures Inv(c, ids, DoWrite(s, e))
  {
    hide Namespace, OwnerOf, ValidKey, Outcome, Issuable, Passed, Signed, IssueOk, RowOk;
    var t := DoWrite(s, e);
    if t != s {
      var f := s.flights[e.rid];
      assert FlightOk(c, ids, s.issues, f);
      if ValidKey(f.key) {
        IssuableOwner(c.registry, c.digest, f.id, C.Grant(f.key, f.req.size, f.req.contentType));
      }
      FlightsKept(c, ids, s, t, e.rid);
    }
  }

  lemma RecordKeeps(c: Config, ids: set<Owner>, s: State, e: Step)
    requires e.Record? && Inv(c, ids, s)
    ensures Inv(c, ids, DoRecord(s, e))
  {
    hide Namespace, OwnerOf, ValidKey, Issuable, Passed, Signed, IssueOk;
    var t := DoRecord(s, e);
    if t != s {
      var f := s.flights[e.rid];
      assert FlightOk(c, ids, s.issues, f);
      FlightsKept(c, ids, s, t, e.rid);
      forall k | k in t.rows ensures RowOk(c, ids, k, t.rows[k]) {
        if k in s.rows { assert RowOk(c, ids, k, s.rows[k]); }
      }
    }
  }

  lemma PutBeginKeeps(c: Config, ids: set<Owner>, s: State, e: Step)
    requires e.PutBegin? && Inv(c, ids, s)
    ensures Inv(c, ids, DoPutBegin(s, e))
  {
    hide RowOk, IssueOk, C.Canonical, C.VerifyUpload;
    var t := DoPutBegin(s, e);
    if t != s {
      C.VerifiedCarriesTag(e.key, e.query, s.now);
      FlightsKept(c, ids, s, t, e.rid);
    }
  }

  lemma PutCommitKeeps(c: Config, ids: set<Owner>, s: State, e: Step)
    requires e.PutCommit? && Inv(c, ids, s)
    ensures Inv(c, ids, DoPutCommit(s, e))
  {
    hide FlightOk, RowOk, IssueOk, Outcome, FileOf;
    var t := DoPutCommit(s, e);
    if t != s { FlightsKept(c, ids, s, t, e.rid); }
  }

  lemma DeleteKeeps(c: Config, ids: set<Owner>, s: State, e: Step)
    requires e.DeleteRow? && Inv(c, ids, s) && Proper(ids, e)
    ensures Inv(c, ids, DoDeleteRow(s, e))
  {
    hide OwnerOf, ValidKey;
    var t := DoDeleteRow(s, e);
    if t != s {
      assert RowOk(c, ids, e.key, s.rows[e.key]);
      assert Owned(c, e.key, Store.OwnerOfRow(s.rows[e.key]));
      FlightsKept(c, ids, s, t, e.rid);
      RowsRemoved(c, ids, s.rows, {e.key});
    }
  }

  lemma RowsRemoved(c: Config, ids: set<Owner>, rows: Store.Rows, gone: set<string>)
    requires RowsOk(c, ids, rows)
    ensures RowsOk(c, ids, rows - gone)
  {
    hide OwnerOf, ValidKey;
    forall k | k in rows - gone ensures RowOk(c, ids, k, (rows - gone)[k]) {
      assert RowOk(c, ids, k, rows[k]);
    }
  }

  lemma WipeKeeps(c: Config, ids: set<Owner>, s: State, rid: nat, account: string, issuer: string,
      order: seq<string>)
    requires Inv(c, ids, s)
    ensures Inv(c, ids, DoWipe(s, rid, account, issuer, order))
  {
    hide OwnerOf, ValidKey;
    var t := DoWipe(s, rid, account, issuer, order);
    if t != s {
      var gone := Store.Wiped(s.rows, account, issuer);
      forall k | k in order ensures exists w :: Party(ids, w) && Targets(account, issuer, w) && Owned(c, k, w) {
        assert k in gone && RowOk(c, ids, k, s.rows[k]);
        assert Owned(c, k, Store.OwnerOfRow(s.rows[k]));
      }
      FlightsKept(c, ids, s, t, rid);
      RowsRemoved(c, ids, s.rows, gone);
    }
  }

  lemma RemoveKeeps(c: Config, ids: set<Owner>, s: State, e: Step)
    requires e.RemoveObject? && Inv(c, ids, s)
    ensures Inv(c, ids, DoRemoveObject(s, e))
  {
    hide Namespace, OwnerOf, ValidKey, Party, Targets, Owned;
    var t := DoRemoveObject(s, e);
    if t != s {
      var f := s.flights[e.rid];
      assert FlightOk(c, ids, s.issues, f);
      if f.keys != [] {
        forall k | k in f.keys[1..]
          ensures exists w :: Party(ids, w) && Targets(f.account, f.issuer, w) && Owned(c, k, w)
        {
          assert k in f.keys;
        }
      }
      FlightsKept(c, ids, s, t, e.rid);
    }
  }

  lemma BeginKeeps(c: Config, ids: set<Owner>, s: State, e: Step)
    requires e.Begin? && Inv(c, ids, s) && Proper(ids, e)
    ensures Inv(c, ids, DoBegin(c, s, e))
  {
    hide RowOk, IssueOk, Issuable, Signed, OwnerOf, ValidKey, Resolve, Validate;
    var t := DoBegin(c, s, e);
    if t != s {
      assert Passed(c, e.id, t.flights[e.rid].place, e.req);
      FlightsKept(c, ids, s, t, e.rid);
    }
  }

  lemma StepKeepsInv(c: Config, ids: set<Owner>, s: State, e: Step)
    requires Inv(c, ids, s) && Proper(ids, e)
    ensures Inv(c, ids, Next(c, s, e))
  {
    hide FlightOk, RowOk, IssueOk, DoBegin, DoDerive, DoSign, DoWrite, DoRecord, DoPutBegin, DoPutCommit;
    hide DoDeleteRow, DoWipe, DoRemoveObject;
    match e
    case Begin(_, _, _, _, _) => BeginKeeps(c, ids, s, e);
    case Derive(_, _, _) => DeriveKeeps(c, ids, s, e);
    case Sign(_) => SignKeeps(c, ids, s, e);
    case Write(_, _) => WriteKeeps(c, ids, s, e);
    case Record(_) => RecordKeeps(c, ids, s, e);
    case PutBegin(_, _, _, _, _) => PutBeginKeeps(c, ids, s, e);
    case PutCommit(_, _) => PutCommitKeeps(c, ids, s, e);
    case DeleteRow(_, _, _) => DeleteKeeps(c, ids, s, e);
    case WipeOwn(rid, id, order) =>
      if !id.anonymous { WipeKeeps(c, ids, s, rid, id.subject, id.issuer, order); }
    case WipeAny(rid, id, account, issuer, order) =>
      if IsAdmin(id) { WipeKeeps(c, ids, s, rid, account, issuer, order); }
    case RemoveObject(_, _) => RemoveKeeps(c, ids, s, e);
    case Abort(rid) => FlightsKept(c, ids, s, Drop(s, rid), rid);
    case Advance(_) =>
  }

  lemma EmptyInv(c: Config, ids: set<Owner>)
    ensures Inv(c, ids, EMPTY)
  {
  }

  lemma {:induction false} RunKeepsInv(c: Config, ids: set<Owner>, s: State, steps: seq<Step>)
    requires Inv(c, ids, s)
    requires forall i :: 0 <= i < |steps| ==> Proper(ids, steps[i])
    ensures Inv(c, ids, Run(c, s, steps))
  {
    hide Next;
    if steps != [] {
      RunKeepsInv(c, ids, s, steps[..|steps| - 1]);
      StepKeepsInv(c, ids, Run(c, s, steps[..|steps| - 1]), steps[|steps| - 1]);
    }
  }

  // --------------------------------------------------------- owner isolation

  // Whether a step is one for v: a request of v's, one on a capability string that
  // was signed for v, or an admin's delete or wipe of uploads of v's.
  ghost predicate ActsFor(s: State, e: Step, v: Owner)
  {
    match e
    case Record(rid) => rid in s.flights && s.flights[rid].Ready? && OwnerId(s.flights[rid].id) == v
    case Write(rid, _) => rid in s.flights && s.flights[rid].Keyed? && OwnerId(s.flights[rid].id) == v
    case PutCommit(rid, _) =>
      rid in s.flights && s.flights[rid].Putting?
      && exists i :: i in s.issues && C.Canonical(i.cap) == C.Canonical(s.flights[rid].cap) && OwnerId(i.to) == v
    case DeleteRow(_, id, key) =>
      key in s.rows && Store.OwnerOfRow(s.rows[key]) == v && (id.admin || OwnerId(id) == v)
    case WipeOwn(_, id, _) => OwnerId(id) == v
    case WipeAny(_, id, account, issuer, _) =>
      IsAdmin(id) && v.account == account && (issuer == "" || v.issuer == issuer)
    case RemoveObject(rid, _) =>
      && rid in s.flights && s.flights[rid].Removing?
      && v.account == s.flights[rid].account && (s.flights[rid].issuer == "" || v.issuer == s.flights[rid].issuer)
    case _ => false
  }

  // v's part of the two stores.
  function RowsOf(rows: Store.Rows, v: Owner): Store.Rows
  {
    map k | k in rows && Store.OwnerOfRow(rows[k]) == v :: rows[k]
  }

  function ObjectsIn(objects: map<string, Bytes>, namespace: string): map<string, Bytes>
  {
    map k | k in objects && OwnerOf(k) == namespace :: objects[k]
  }

  ghost predicate SameShare(c: Config, s: State, t: State, v: Owner)
  {
    && RowsOf(t.rows, v) == RowsOf(s.rows, v)
    && ObjectsIn(t.objects, Namespace(c.digest, v)) == ObjectsIn(s.objects, Namespace(c.digest, v))
  }

  // Each party's namespace is no one else's.
  lemma NamespacesApart(c: Config, ids: set<Owner>, w: Owner, v: Owner)
    requires CollisionFree(c, ids) && Party(ids, w) && Party(ids, v) && w != v
    ensures Namespace(c.digest, w) != Namespace(c.digest, v)
  {
    assert |ANONYMOUS_OWNER| == 10;
    assert w.account != "" ==> |Namespace(c.digest, w)| == 16;
    assert v.account != "" ==> |Namespace(c.digest, v)| == 16;
  }

  lemma ForeignObject(c: Config, objects: map<string, Bytes>, key: string, content: Bytes, namespace: string)
    requires OwnerOf(key) != namespace
    ensures ObjectsIn(objects[key := content], namespace) == ObjectsIn(objects, namespace)
    ensures ObjectsIn(objects - {key}, namespace) == ObjectsIn(objects, namespace)
  {
  }

  lemma RecordIsolated(c: Config, ids: set<Owner>, s: State, e: Step, v: Owner)
    requires Inv(c, ids, s) && e.Record? && !ActsFor(s, e, v)
    ensures SameShare(c, s, DoRecord(s, e), v)
  {
    hide OwnerOf, ValidKey;
    if DoRecord(s, e).rows != s.rows {
      var f := s.flights[e.rid];
      assert FlightOk(c, ids, s.issues, f);
      ForeignRow(s.rows, f.key, f.row, v);
    }
  }

  lemma ForeignRow(rows: Store.Rows, key: string, row: Store.Upload, v: Owner)
    requires key !in rows && Store.OwnerOfRow(row) != v
    ensures RowsOf(rows[key := row], v) == RowsOf(rows, v)
  {
  }

  lemma WriteIsolated(c: Config, ids: set<Owner>, s: State, e: Step, v: Owner)
    requires Inv(c, ids, s) && CollisionFree(c, ids) && e.Write?
    requires Party(ids, v) && !ActsFor(s, e, v)
    ensures SameShare(c, s, DoWrite(s, e), v)
  {
    hide Namespace, OwnerOf, ValidKey, Outcome, Issuable, Passed, Signed, IssueOk, RowOk;
    var t := DoWrite(s, e);
    if t.objects != s.objects {
      var f := s.flights[e.rid];
      assert FlightOk(c, ids, s.issues, f);
      IssuableOwner(c.registry, c.digest, f.id, C.Grant(f.key, f.req.size, f.req.contentType));
      NamespacesApart(c, ids, OwnerId(f.id), v);
      ForeignObject(c, s.objects, f.key, t.objects[f.key], Namespace(c.digest, v));
    }
  }

  // The file that a PUT replaces is one that a reading of what was signed names.
  lemma PutIsolated(c: Config, ids: set<Owner>, s: State, e: Step, v: Owner)
    requires Inv(c, ids, s) && CollisionFree(c, ids) && Homebound(c.registry, c.digest) && e.PutCommit?
    requires Party(ids, v) && !ActsFor(s, e, v)
    ensures SameShare(c, s, DoPutCommit(s, e), v)
  {
    hide Namespace, OwnerOf, FileOf, Outcome, RowOk, C.Canonical, Issuable, C.SignedText, CollisionFree, Homebound;
    var t := DoPutCommit(s, e);
    if t.objects != s.objects {
      var cap := s.flights[e.rid].cap;
      assert FlightOk(c, ids, s.issues, s.flights[e.rid]);
      var i :| i in s.issues && C.Canonical(i.cap) == C.Canonical(cap);
      assert IssueOk(c, ids, i);
      var file := FileOf(cap.key).value;
      NotReached(c, ids, i, cap, v);
      ForeignObject(c, s.objects, file, t.objects[file], Namespace(c.digest, v));
    }
  }

  lemma NotReached(c: Config, ids: set<Owner>, i: Issue, cap: C.Capability, v: Owner)
    requires CollisionFree(c, ids) && Homebound(c.registry, c.digest) && IssueOk(c, ids, i) && Party(ids, v)
    requires C.Representable(cap) && C.Canonical(i.cap) == C.Canonical(cap) && OwnerId(i.to) != v
    requires FileOf(cap.key).Some?
    ensures OwnerOf(FileOf(cap.key).value) != Namespace(c.digest, v)
  {
    hide Namespace, OwnerOf, FileOf, C.Canonical, Issuable, C.SignedText;
    C.SameCanonicalExactly(cap, i.cap);
    NamespacesApart(c, ids, OwnerId(i.to), v);
    assert C.Reads(C.GrantOf(cap), C.GrantOf(i.cap));
    assert Reaches(c.digest, C.GrantOf(cap), v) <==> OwnerOf(FileOf(cap.key).value) == Namespace(c.digest, v);
  }

  lemma RemoveIsolated(c: Config, ids: set<Owner>, s: State, e: Step, v: Owner)
    requires Inv(c, ids, s) && CollisionFree(c, ids) && e.RemoveObject?
    requires Party(ids, v) && !ActsFor(s, e, v)
    ensures SameShare(c, s, DoRemoveObject(s, e), v)
  {
    hide RowOk, IssueOk, RowsOf, Namespace, OwnerOf, ValidKey;
    var t := DoRemoveObject(s, e);
    if t.objects != s.objects {
      var f := s.flights[e.rid];
      assert FlightOk(c, ids, s.issues, f);
      assert f.keys[0] in f.keys;
      var w :| Party(ids, w) && Targets(f.account, f.issuer, w) && Owned(c, f.keys[0], w);
      NamespacesApart(c, ids, w, v);
      ForeignObject(c, s.objects, f.keys[0], [], Namespace(c.digest, v));
    }
  }

  lemma DeleteIsolated(c: Config, s: State, e: Step, v: Owner)
    requires e.DeleteRow? && !ActsFor(s, e, v)
    ensures SameShare(c, s, DoDeleteRow(s, e), v)
  {
  }

  lemma WipeIsolated(c: Config, s: State, rid: nat, account: string, issuer: string, order: seq<string>, v: Owner)
    requires v.account != account || (issuer != "" && v.issuer != issuer)
    ensures SameShare(c, s, DoWipe(s, rid, account, issuer, order), v)
  {
  }

  // The steps that touch neither store.
  predicate Quiet(e: Step)
  {
    e.Begin? || e.Derive? || e.Sign? || e.PutBegin? || e.Abort? || e.Advance?
  }

  lemma QuietSteps(c: Config, s: State, e: Step)
    requires Quiet(e)
    ensures Next(c, s, e).rows == s.rows && Next(c, s, e).objects == s.objects
  {
    hide DeriveKey, Admits, C.Canonical, C.AdmitPut, ValidKey, IsDumpKey, UniqueOf;
  }

  lemma StepIsolated(c: Config, ids: set<Owner>, s: State, e: Step, v: Owner)
    requires Inv(c, ids, s) && Proper(ids, e) && CollisionFree(c, ids) && Homebound(c.registry, c.digest)
    requires Party(ids, v) && !ActsFor(s, e, v)
    ensures SameShare(c, s, Next(c, s, e), v)
  {
    if Quiet(e) {
      QuietSteps(c, s, e);
    } else {
      match e
      case Record(_) => RecordIsolated(c, ids, s, e, v);
      case Write(_, _) => WriteIsolated(c, ids, s, e, v);
      case PutCommit(_, _) => PutIsolated(c, ids, s, e, v);
      case RemoveObject(_, _) => RemoveIsolated(c, ids, s, e, v);
      case DeleteRow(_, _, _) => DeleteIsolated(c, s, e, v);
      case WipeOwn(rid, id, order) =>
        if !id.anonymous { WipeIsolated(c, s, rid, id.subject, id.issuer, order, v); }
      case WipeAny(rid, id, account, issuer, order) =>
        if IsAdmin(id) { WipeIsolated(c, s, rid, account, issuer, order, v); }
    }
  }

  // The steps that are not for v.
  ghost function Bystander(v: Owner): (State, Step) -> bool { (s: State, e: Step) => !ActsFor(s, e, v) }

  ghost predicate NeverActsFor(c: Config, s: State, steps: seq<Step>, v: Owner)
  {
    Along(c, s, steps, Bystander(v))
  }

  lemma {:induction false} RunIsolated(c: Config, ids: set<Owner>, s: State, steps: seq<Step>, v: Owner)
    requires Inv(c, ids, s) && CollisionFree(c, ids) && Homebound(c.registry, c.digest)
    requires Party(ids, v)
    requires forall i :: 0 <= i < |steps| ==> Proper(ids, steps[i])
    requires NeverActsFor(c, s, steps, v)
    ensures SameShare(c, s, Run(c, s, steps), v)
    decreases |steps|
  {
    hide Next, Inv, Proper, ActsFor, CollisionFree, Homebound, RowsOf, ObjectsIn;
    if steps != [] {
      var before, n := steps[..|steps| - 1], |steps| - 1;
      AlongBefore(c, s, steps, Bystander(v), n);
      RunIsolated(c, ids, s, before, v);
      RunKeepsInv(c, ids, s, before);
      StepIsolated(c, ids, Run(c, s, before), steps[n], v);
    }
  }

  // Owner isolation over whole runs: from any reachable state, however others'
  // requests, forged or stale capabilities, deletes, wipes and aborts
  // interleave, v's rows and every object in v's namespace stay as they are
  // until v acts, a capability signed for v is used, or an admin deletes an upload
  // of v's or wipes v's account. v may also be the anonymous bucket.
  lemma {:induction false} OwnerIsolation(c: Config, ids: set<Owner>, before: seq<Step>, steps: seq<Step>, v: Owner)
    requires CollisionFree(c, ids) && Homebound(c.registry, c.digest) && Party(ids, v)
    requires forall i :: 0 <= i < |before| ==> Proper(ids, before[i])
    requires forall i :: 0 <= i < |steps| ==> Proper(ids, steps[i])
    requires NeverActsFor(c, Run(c, EMPTY, before), steps, v)
    ensures SameShare(c, Run(c, EMPTY, before), Run(c, EMPTY, before + steps), v)
    ensures forall k :: k in Run(c, EMPTY, before).rows ==> RowOk(c, ids, k, Run(c, EMPTY, before).rows[k])
  {
    RunKeepsInv(c, ids, EMPTY, before);
    RunConcat(c, EMPTY, before, steps);
    RunIsolated(c, ids, Run(c, EMPTY, before), steps, v);
  }

  // ------------------------------------------------------- capability safety

  // A proxied PUT gets through only on a string that was signed earlier, for an
  // upload that some place's policy allowed, until its expiry. The key, size and
  // content type are those of a reading of that string.
  lemma {:induction false} AcceptedPutWasSigned(c: Config, ids: set<Owner>, steps: seq<Step>, e: Step)
    returns (i: Issue)
    requires forall i :: 0 <= i < |steps| ==> Proper(ids, steps[i])
    requires e.PutBegin? && Next(c, Run(c, EMPTY, steps), e) != Run(c, EMPTY, steps)
    ensures var s := Run(c, EMPTY, steps);
            && i in s.issues && Issuable(c.registry, c.digest, i.to, C.GrantOf(i.cap))
            && var size := ParseInt64(e.query.size);
               && size.Some? && C.Reads(C.Grant(e.key, size.value, e.query.ct), C.GrantOf(i.cap))
               && ParseInt64(e.query.exp) == Some(C.Unix(i.cap.expires)) && s.now <= C.Unix(i.cap.expires) * C.SECOND
               && (e.query.ct != "" ==> e.contentType == e.query.ct)
               && (size.value > 0 ==> e.contentLength <= size.value)
  {
    hide OwnerOf, ValidKey, C.Canonical, C.SignedText, Run, Issuable, Along;
    var s := Run(c, EMPTY, steps);
    RunKeepsInv(c, ids, EMPTY, steps);
    C.VerifiedCarriesTag(e.key, e.query, s.now);
    var cap := C.AdmitPut(e.key, e.query, s.now, e.contentType, e.contentLength).value;
    i :| i in s.issues && C.Canonical(i.cap) == C.Canonical(cap);
    assert IssueOk(c, ids, i);
    C.SameCanonicalExactly(cap, i.cap);
  }

  lemma CommitReads(c: Config, ids: set<Owner>, s: State, e: Step) returns (i: Issue, h: C.Grant)
    requires Inv(c, ids, s) && e.PutCommit? && DoPutCommit(s, e).objects != s.objects
    ensures i in s.issues && C.Reads(h, C.GrantOf(i.cap)) && FileOf(h.key).Some?
    ensures var t, file := DoPutCommit(s, e), FileOf(h.key).value;
            && file in t.objects && t.objects == s.objects[file := t.objects[file]]
            && Within(h.maxSize, |t.objects[file]|)
            && t == Drop(s, e.rid).(objects := t.objects)
  {
    hide OwnerOf, ValidKey, FileOf, C.Canonical, C.SignedText, Issuable;
    var cap := s.flights[e.rid].cap;
    assert FlightOk(c, ids, s.issues, s.flights[e.rid]);
    i :| i in s.issues && C.Canonical(i.cap) == C.Canonical(cap);
    C.SameCanonicalExactly(cap, i.cap);
    h := C.GrantOf(cap);
  }

  // What a size limit lets land: a positive one bounds the bytes, and 2^63-1
  // lets none through.
  predicate Within(limit: int, bytes: int)
  {
    (limit > 0 ==> bytes <= limit) && (limit == MAX_INT64 ==> bytes == 0)
  }

  // When the body of a PUT lands, it replaces one file, the one that a reading
  // of a signed string names, and stays within that reading's size.
  lemma {:induction false} LandedPutWithinGrant(c: Config, ids: set<Owner>, steps: seq<Step>, e: Step)
    requires forall i :: 0 <= i < |steps| ==> Proper(ids, steps[i])
    requires e.PutCommit? && Next(c, Run(c, EMPTY, steps), e).objects != Run(c, EMPTY, steps).objects
    ensures var s := Run(c, EMPTY, steps); var t := Next(c, s, e);
            exists i, h :: i in s.issues && C.Reads(h, C.GrantOf(i.cap)) && FileOf(h.key).Some?
              && var file := FileOf(h.key).value;
                 && file in t.objects && t.objects == s.objects[file := t.objects[file]]
                 && Within(h.maxSize, |t.objects[file]|)
  {
    hide Run, FileOf, C.SignedText, Within;
    RunKeepsInv(c, ids, EMPTY, steps);
    var i, h := CommitReads(c, ids, Run(c, EMPTY, steps), e);
  }
}
