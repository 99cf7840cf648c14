/** What is stored under a key against what was charged for it: the condition on a
    registry's places under which no object with a row is larger than its row, in
    every run, and the runs that break it. */
module Charges {
  import opened Wrappers
  import opened Decimal
  import opened Sums
  import opened Places
  import opened ObjectKeys
  import opened Transfers
  import opened Gateway
  import opened Grants
  import opened Reach
  import opened Scripts
  import opened Exactness
  import C = Capabilities
  import Isolation
  import Quotas
  import Store

  // Some caller can be presigned g, and its unique segment, if it has one, was
  // drawn for just this.
  ghost predicate Known(c: Config, s: State, g: C.Grant)
  {
    && (exists id :: Issuable(c.registry, c.digest, id, g))
    && DrawnFor(s, g)
  }

  predicate DrawnFor(s: State, g: C.Grant)
  {
    IsDumpKey(g.key) ==> UniqueOf(g.key) in s.segments && s.segments[UniqueOf(g.key)] == Drawn(g.key, g.maxSize)
  }

  // A reading h of a known grant lets this many bytes into the file.
  ghost predicate LetIn(c: Config, s: State, file: string, bytes: int, g: C.Grant, h: C.Grant)
  {
    Known(c, s, g) && C.Reads(h, g) && FileOf(h.key) == Some(file) && Isolation.Within(h.maxSize, bytes)
  }

  function RowGrant(key: string, row: Store.Upload): C.Grant { C.Grant(key, row.size, row.contentType) }

  ghost predicate FlightKnown(c: Config, s: State, f: Flight)
  {
    match f
    case Keyed(_, key, req, _) => DrawnFor(s, C.Grant(key, req.size, req.contentType))
    case Ready(_, key, row) => Known(c, s, RowGrant(key, row))
    case _ => true
  }

  ghost predicate RowsKnown(c: Config, s: State) { forall k :: k in s.rows ==> Known(c, s, RowGrant(k, s.rows[k])) }

  ghost predicate IssuesKnown(c: Config, s: State) { forall i :: i in s.issues ==> Known(c, s, C.GrantOf(i.cap)) }

  ghost predicate FlightsKnown(c: Config, s: State) { forall r :: r in s.flights ==> FlightKnown(c, s, s.flights[r]) }

  ghost predicate ObjectLetIn(c: Config, s: State, file: string)
    requires file in s.objects
  {
    exists g, h :: LetIn(c, s, file, |s.objects[file]|, g, h)
  }

  ghost predicate ObjectsLetIn(c: Config, s: State) { forall f :: f in s.objects ==> ObjectLetIn(c, s, f) }

  // Rows say what was asked for their key, and objects are what some signed
  // string, or some one-shot upload, let in.
  ghost predicate Inv(c: Config, s: State)
  {
    RowsKnown(c, s) && IssuesKnown(c, s) && FlightsKnown(c, s) && ObjectsLetIn(c, s)
  }

  // --------------------------------------------------- the invariant, by step

  // Draws are kept; everything known stays so.
  predicate Keeps(s: State, t: State)
  {
    forall u :: u in s.segments ==> u in t.segments && t.segments[u] == s.segments[u]
  }

  lemma KnownKept(c: Config, s: State, t: State)
    requires Keeps(s, t)
    ensures forall g :: Known(c, s, g) ==> Known(c, t, g)
    ensures forall f :: FlightKnown(c, s, f) ==> FlightKnown(c, t, f)
  {
    hide Issuable, IsDumpKey, UniqueOf;
  }

  lemma ObjectKept(c: Config, s: State, t: State, file: string)
    requires Keeps(s, t) && file in s.objects && file in t.objects && t.objects[file] == s.objects[file]
    requires ObjectLetIn(c, s, file)
    ensures ObjectLetIn(c, t, file)
  {
    KnownKept(c, s, t);
    hide Known, Isolation.Within, FileOf, C.Reads;
    var g, h :| LetIn(c, s, file, |s.objects[file]|, g, h);
    assert LetIn(c, t, file, |t.objects[file]|, g, h);
  }

  // Whatever a step does not touch stays accounted for.
  lemma StepFrame(c: Config, s: State, t: State)
    requires Inv(c, s) && Keeps(s, t)
    requires forall k :: k in t.rows ==> (k in s.rows && t.rows[k] == s.rows[k]) || Known(c, t, RowGrant(k, t.rows[k]))
    requires forall i :: i in t.issues ==> i in s.issues || Known(c, t, C.GrantOf(i.cap))
    requires forall r :: r in t.flights ==>
               (r in s.flights && t.flights[r] == s.flights[r]) || FlightKnown(c, t, t.flights[r])
    requires forall f :: f in t.objects ==> (f in s.objects && t.objects[f] == s.objects[f]) || ObjectLetIn(c, t, f)
    ensures Inv(c, t)
  {
    KnownKept(c, s, t);
    hide Known, FlightKnown, LetIn, Keeps;
    forall f | f in t.objects ensures ObjectLetIn(c, t, f) {
      if f in s.objects && t.objects[f] == s.objects[f] {
        hide ObjectLetIn;
        ObjectKept(c, s, t, f);
      }
    }
  }

  lemma DeriveKnown(c: Config, s: State, e: Step)
    requires e.Derive? && Inv(c, s) && FreshDraw(c, s, e)
    ensures Inv(c, DoDerive(c, s, e))
  {
    hide DeriveKey, IsDumpKey, UniqueOf, Known, ObjectLetIn;
    StepFrame(c, s, DoDerive(c, s, e));
  }

  lemma SignKnown(c: Config, ids: set<Owner>, s: State, e: Step)
    requires e.Sign? && Inv(c, s) && Isolation.Inv(c, ids, s)
    ensures Inv(c, DoSign(s, e))
  {
    hide ValidKey, C.Canonical, Known, ObjectLetIn, Isolation.Inv;
    var t := DoSign(s, e);
    KnownKept(c, s, t);
    if t != s && e.rid in t.flights {
      KeyedKnown(c, ids, s, e.rid);
    }
    StepFrame(c, s, t);
  }

  lemma KeyedKnown(c: Config, ids: set<Owner>, s: State, rid: nat)
    requires Inv(c, s) && Isolation.Inv(c, ids, s)
    requires rid in s.flights && s.flights[rid].Keyed? && ValidKey(s.flights[rid].key)
    ensures var f := s.flights[rid]; Known(c, s, C.Grant(f.key, f.req.size, f.req.contentType))
  {
    hide ValidKey, DrawnFor, Issuable, ObjectLetIn, Isolation.RowsOk, Isolation.IssuesOk;
    assert Isolation.FlightOk(c, ids, s.issues, s.flights[rid]) && FlightKnown(c, s, s.flights[rid]);
  }

  // A one-shot upload stores and records its file's size, which is what its key
  // was drawn for.
  lemma WriteKnown(c: Config, ids: set<Owner>, s: State, e: Step)
    requires e.Write? && Inv(c, s) && Isolation.Inv(c, ids, s) && WholeFile(s, e)
    ensures Inv(c, DoWrite(s, e))
  {
    hide ValidKey, Outcome, Known, ObjectLetIn, Isolation.Inv;
    var t := DoWrite(s, e);
    KnownKept(c, s, t);
    if t != s && e.rid in t.flights {
      var f := s.flights[e.rid];
      KeyedKnown(c, ids, s, e.rid);
      WrittenLetIn(c, s, t, f, C.Grant(f.key, f.req.size, f.req.contentType), e.body);
    }
    StepFrame(c, s, t);
  }

  lemma WrittenLetIn(c: Config, s: State, t: State, f: Flight, g: C.Grant, body: Reader)
    requires Known(c, s, g) && Keeps(s, t) && f.Keyed? && g == C.Grant(f.key, f.req.size, f.req.contentType)
    requires f.key in t.objects && Outcome(f.req.size, body) == Ok(t.objects[f.key])
    requires |Body(body.chunks)| == f.req.size < MAX_INT64
    ensures ObjectLetIn(c, t, f.key) && |t.objects[f.key]| == f.req.size
  {
    KnownKept(c, s, t);
    var id :| Issuable(c.registry, c.digest, id, g);
    IssuableOwner(c.registry, c.digest, id, g);
    ValidKeyFile(f.key);
    AcceptedExactly(f.req.size, body);
    hide ValidKey, FileOf, Outcome, Known, OwnerOf, IsDumpKey, Issuable, C.SignedText;
    assert LetIn(c, t, f.key, |t.objects[f.key]|, g, g);
  }

  lemma RecordKnown(c: Config, s: State, e: Step)
    requires e.Record? && Inv(c, s)
    ensures Inv(c, DoRecord(s, e))
  {
    hide Known, ObjectLetIn;
    if e.rid in s.flights { assert FlightKnown(c, s, s.flights[e.rid]); }
    KnownKept(c, s, DoRecord(s, e));
    StepFrame(c, s, DoRecord(s, e));
  }

  lemma CommitKnown(c: Config, ids: set<Owner>, s: State, e: Step)
    requires e.PutCommit? && Inv(c, s) && Isolation.Inv(c, ids, s)
    ensures Inv(c, DoPutCommit(s, e))
  {
    hide Isolation.Inv, Known, Outcome, FileOf, C.Reads, Isolation.Within;
    var t := DoPutCommit(s, e);
    if t.objects != s.objects {
      var i, h := Isolation.CommitReads(c, ids, s, e);
      var file := FileOf(h.key).value;
      KnownKept(c, s, t);
      assert Known(c, t, C.GrantOf(i.cap));
      assert LetIn(c, t, file, |t.objects[file]|, C.GrantOf(i.cap), h);
      assert ObjectLetIn(c, t, file);
    }
    hide ObjectLetIn;
    StepFrame(c, s, t);
  }

  lemma WipeKnown(c: Config, s: State, rid: nat, account: string, issuer: string, order: seq<string>)
    requires Inv(c, s)
    ensures Inv(c, DoWipe(s, rid, account, issuer, order))
  {
    hide Known, ObjectLetIn;
    StepFrame(c, s, DoWipe(s, rid, account, issuer, order));
  }

  lemma DeleteKnown(c: Config, s: State, e: Step)
    requires e.DeleteRow? && Inv(c, s)
    ensures Inv(c, DoDeleteRow(s, e))
  {
    hide Known, ObjectLetIn, MayDelete;
    StepFrame(c, s, DoDeleteRow(s, e));
  }

  lemma RemoveKnown(c: Config, s: State, e: Step)
    requires e.RemoveObject? && Inv(c, s)
    ensures Inv(c, DoRemoveObject(s, e))
  {
    hide Known, ObjectLetIn, ValidKey;
    StepFrame(c, s, DoRemoveObject(s, e));
  }

  lemma BeginKnown(c: Config, s: State, e: Step)
    requires e.Begin? && Inv(c, s)
    ensures Inv(c, DoBegin(c, s, e))
  {
    hide Known, ObjectLetIn, Admits;
    StepFrame(c, s, DoBegin(c, s, e));
  }

  lemma PutBeginKnown(c: Config, s: State, e: Step)
    requires e.PutBegin? && Inv(c, s)
    ensures Inv(c, DoPutBegin(s, e))
  {
    hide Known, ObjectLetIn, C.AdmitPut, C.Canonical;
    StepFrame(c, s, DoPutBegin(s, e));
  }

  // Ending a request, or time passing.
  lemma FrameKnown(c: Config, s: State, t: State)
    requires Inv(c, s)
    requires t.rows == s.rows && t.objects == s.objects && t.issues == s.issues && t.segments == s.segments
    requires forall r :: r in t.flights ==> r in s.flights && t.flights[r] == s.flights[r]
    ensures Inv(c, t)
  {
    hide Known, ObjectLetIn;
    StepFrame(c, s, t);
  }

  lemma StepKnown(c: Config, ids: set<Owner>, s: State, e: Step)
    requires Inv(c, s) && Isolation.Inv(c, ids, s) && FreshDraw(c, s, e) && WholeFile(s, e)
    ensures Inv(c, Next(c, s, e))
  {
    hide Inv, Isolation.Inv, FreshDraw, WholeFile, DoDerive, DoSign, DoWrite, DoRecord, DoPutCommit, DoWipe,
      DoDeleteRow, DoRemoveObject, DoBegin, DoPutBegin;
    match e
    case Derive(_, _, _) => DeriveKnown(c, s, e);
    case Sign(_) => SignKnown(c, ids, s, e);
    case Write(_, _) => WriteKnown(c, ids, s, e);
    case Record(_) => RecordKnown(c, s, e);
    case PutCommit(_, _) => CommitKnown(c, ids, s, e);
    case WipeOwn(rid, id, order) => WipeKnown(c, s, rid, id.subject, id.issuer, order);
    case WipeAny(rid, id, account, issuer, order) => WipeKnown(c, s, rid, account, issuer, order);
    case DeleteRow(_, _, _) => DeleteKnown(c, s, e);
    case RemoveObject(_, _) => RemoveKnown(c, s, e);
    case Begin(_, _, _, _, _) => BeginKnown(c, s, e);
    case PutBegin(_, _, _, _, _) => PutBeginKnown(c, s, e);
    case Abort(rid) => FrameKnown(c, s, Drop(s, rid));
    case Advance(to) => FrameKnown(c, s, s.(now := to));
  }

  lemma EmptyKnown(c: Config)
    ensures Inv(c, EMPTY)
  {
  }

  lemma {:induction false} RunKnown(c: Config, ids: set<Owner>, steps: seq<Step>)
    requires ProperRun(ids, steps) && Along(c, EMPTY, steps, Plausible(c))
    ensures Inv(c, Run(c, EMPTY, steps))
    decreases |steps|
  {
    hide Next;
    EmptyKnown(c);
    Isolation.EmptyInv(c, ids);
    hide Inv, Isolation.Inv, FreshDraw, WholeFile, Isolation.Proper;
    if steps != [] {
      var before, n := steps[..|steps| - 1], |steps| - 1;
      AlongBefore(c, EMPTY, steps, Plausible(c), n);
      RunKnown(c, ids, before);
      Isolation.RunKeepsInv(c, ids, EMPTY, before);
      StepKnown(c, ids, Run(c, EMPTY, before), steps[n]);
    }
  }

  // ------------------------------------------------------------ every run fits

  // Every object that has a row is no larger than the row says; among dump keys,
  // or among all.
  predicate Covered(s: State, all: bool)
  {
    forall k :: k in s.rows && k in s.objects && (all || IsDumpKey(k)) ==> |s.objects[k]| <= s.rows[k].size
  }

  ghost predicate RunFits(c: Config, ids: set<Owner>, steps: seq<Step>, all: bool)
  {
    ProperRun(ids, steps) && Along(c, EMPTY, steps, Plausible(c)) ==> Covered(Run(c, EMPTY, steps), all)
  }

  ghost predicate EveryRunFits(r: Registry, digest: Digest, all: bool)
  {
    forall quota: Quotas.Policy, ids: set<Owner>, steps: seq<Step> :: RunFits(Config(r, quota, digest), ids, steps, all)
  }

  lemma KnownTogether(c: Config, s: State, g1: C.Grant, g2: C.Grant)
    requires Known(c, s, g1) && Known(c, s, g2)
    ensures Together(g1, g2)
  {
    hide Issuable, IsDumpKey, UniqueOf;
  }

  lemma ObjectFits(c: Config, s: State, k: string, all: bool)
    requires Inv(c, s) && Tight(c.registry, c.digest, all) && k in s.rows && k in s.objects && (all || IsDumpKey(k))
    ensures |s.objects[k]| <= s.rows[k].size
  {
    hide Together, Issuable, IsDumpKey, FileOf, C.Reads, DrawnFor;
    var g2 := RowGrant(k, s.rows[k]);
    assert ObjectLetIn(c, s, k) && Known(c, s, g2);
    var g1, h :| LetIn(c, s, k, |s.objects[k]|, g1, h);
    KnownTogether(c, s, g1, g2);
    var id1 :| Issuable(c.registry, c.digest, id1, g1);
    var id2 :| Issuable(c.registry, c.digest, id2, g2);
    IssuableOwner(c.registry, c.digest, id2, g2);
    assert !Oversizes(c.registry, c.digest, all, id1, g1, h, id2, g2);
  }

  lemma TightFits(c: Config, ids: set<Owner>, steps: seq<Step>, all: bool)
    requires Tight(c.registry, c.digest, all)
    ensures RunFits(c, ids, steps, all)
  {
    hide Tight, Inv, Run, Along, IsDumpKey;
    if ProperRun(ids, steps) && Along(c, EMPTY, steps, Plausible(c)) {
      RunKnown(c, ids, steps);
      var s := Run(c, EMPTY, steps);
      forall k | k in s.rows && k in s.objects && (all || IsDumpKey(k)) ensures |s.objects[k]| <= s.rows[k].size {
        ObjectFits(c, s, k, all);
      }
    }
  }

  // o's objects that have a row; among dump keys, or among all.
  function Recorded(s: State, o: Owner, all: bool): map<string, Bytes>
  {
    map k | k in s.rows && k in s.objects && (all || IsDumpKey(k)) && Store.OwnerOfRow(s.rows[k]) == o :: s.objects[k]
  }

  function Length(): Bytes -> int { (b: Bytes) => |b| }

  // Then, summed over an owner, the recorded objects take no more than the usage
  // the owner is charged for.
  lemma {:induction false} ChargedCoversStored(c: Config, ids: set<Owner>, steps: seq<Step>, o: Owner, all: bool)
    requires Tight(c.registry, c.digest, all)
    requires ProperRun(ids, steps) && Along(c, EMPTY, steps, Plausible(c))
    ensures var s := Run(c, EMPTY, steps);
            Covered(s, all) && Sum(Recorded(s, o, all), Length()) <= Store.Usage(s.rows, o)
  {
    hide Run, Tight, IsDumpKey, Along, Isolation.RowOk;
    var s := Run(c, EMPTY, steps);
    TightFits(c, ids, steps, all);
    Isolation.RunKeepsInv(c, ids, EMPTY, steps);
    forall k | k in s.rows ensures s.rows[k].size >= 0 { SizeKnown(c, ids, s, k); }
    SumMonotone(Recorded(s, o, all), s.rows, Length(), Store.Only(Store.Size(), o));
  }

  lemma SizeKnown(c: Config, ids: set<Owner>, s: State, k: string)
    requires Isolation.RowsOk(c, ids, s.rows) && k in s.rows
    ensures s.rows[k].size >= 0
  {
    assert Isolation.RowOk(c, ids, k, s.rows[k]);
  }
}
