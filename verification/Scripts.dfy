/** Single requests on the step machine: the steps of a presign, a one-shot upload,
    a PUT or a delete that nobody interleaves with, and what they amount to. */
module Scripts {
  import opened Wrappers
  import opened Decimal
  import opened Timestamps
  import opened Places
  import opened ObjectKeys
  import opened Transfers
  import opened Gateway
  import opened Grants
  import C = Capabilities
  import Quotas
  import Store

  function PresignSteps(rid: nat, id: Identity, placeName: string, req: Request, stamp: Stamp,
      random: Option<Bytes>): seq<Step>
  {
    [Begin(rid, id, placeName, req, false), Derive(rid, stamp, random), Sign(rid), Record(rid)]
  }

  function UploadSteps(rid: nat, id: Identity, placeName: string, req: Request, stamp: Stamp, random: Option<Bytes>,
      body: Reader): seq<Step>
  {
    [Begin(rid, id, placeName, req, true), Derive(rid, stamp, random), Step.Write(rid, body), Record(rid)]
  }

  // A request that is not in flight takes no further step.
  lemma AbsentStutters(c: Config, s: State, rid: nat, stamp: Stamp, random: Option<Bytes>, body: Reader)
    requires rid !in s.flights
    ensures Next(c, s, Derive(rid, stamp, random)) == s && Next(c, s, Sign(rid)) == s
    ensures Next(c, s, Step.Write(rid, body)) == s && Next(c, s, Record(rid)) == s
  {
    hide DeriveKey, Outcome;
  }

  lemma AdmitsResolves(c: Config, rows: Store.Rows, id: Identity, placeName: string, req: Request, oneShot: bool)
    ensures Admits(c, rows, id, placeName, req, oneShot) ==> Resolve(c.registry, placeName).Ok?
    ensures Admits(c, rows, id, placeName, req, oneShot)
       <==> Admits(c, rows, id, placeName, req, true) && (!oneShot ==> req.filename != "")
  {
  }

  // The first three checks, against the definitions a registry was built from:
  // which place is meant, what its policy lets through, and the quota.
  lemma AdmittedExactly(c: Config, defs: map<string, Definition>, defaultName: string, globalMaxSize: int,
                        rows: Store.Rows, id: Identity, placeName: string, req: Request, oneShot: bool)
    requires IsRegistry(c.registry, defs, defaultName, globalMaxSize)
    ensures var n := if placeName == "" then defaultName else placeName;
            Admits(c, rows, id, placeName, req, oneShot)
            <==> (&& n != "" && n in defs
                  && var d := defs[n];
                     var cap := if d.maxSize == 0 then globalMaxSize else d.maxSize;
                     && (oneShot || req.filename != "")
                     && 0 < req.size && (cap <= 0 || req.size <= cap)
                     && (d.allowedMime == [] || req.contentType in d.allowedMime)
                     && (if id.anonymous then !d.requireIdentity && d.strategy != STRATEGY_ACCOUNT
                         else Quotas.Check(c.quota, id.subject, Store.UsageReading(rows, OwnerId(id)), req.size).None?))
  {
    ResolvedPolicy(c.registry, defs, defaultName, globalMaxSize, placeName);
    if Resolve(c.registry, placeName).Ok? {
      AcceptedRequest(Resolve(c.registry, placeName).value, req, id.anonymous);
    }
    hide Resolve, Validate, Quotas.Check, Store.UsageReading, IsRegistry;
  }

  // A presign request without a filename does not start.
  lemma NamelessStutters(c: Config, s: State, rid: nat, id: Identity, placeName: string, req: Request)
    requires req.filename == ""
    ensures Next(c, s, Begin(rid, id, placeName, req, false)) == s
  {
    hide Next;
    Dispatch(c, s, Begin(rid, id, placeName, req, false));
  }

  // A request that passes its checks and gets its key.
  lemma BeginThenDerive(c: Config, s: State, rid: nat, id: Identity, placeName: string, req: Request, oneShot: bool,
                        stamp: Stamp, random: Option<Bytes>)
    requires rid !in s.flights
    ensures var t := Next(c, Next(c, s, Begin(rid, id, placeName, req, oneShot)), Derive(rid, stamp, random));
            if Admits(c, s.rows, id, placeName, req, oneShot) then
              var place := Resolve(c.registry, placeName).value;
              var key := DeriveKey(DerivationOf(place, id, req, stamp, random), c.digest);
              if key.Err? then t == s
              else t == InHand(Drawing(s, key.value, req), rid, id, key.value, req, oneShot)
            else t == s
  {
    hide Next, DeriveKey, Admits, IsDumpKey, UniqueOf;
    var a := Begin(rid, id, placeName, req, oneShot);
    Dispatch(c, s, a);
    Dispatch(c, DoBegin(c, s, a), Derive(rid, stamp, random));
    AdmitsResolves(c, s.rows, id, placeName, req, oneShot);
    if Admits(c, s.rows, id, placeName, req, oneShot) {
      var s1 := DoBegin(c, s, Begin(rid, id, placeName, req, oneShot));
      assert s1.flights - {rid} == s.flights;
    }
  }

  function Drawing(s: State, key: string, req: Request): State
  {
    s.(segments := WithDraw(s.segments, key, req.size))
  }

  function InHand(s: State, rid: nat, id: Identity, key: string, req: Request, oneShot: bool): State
  {
    s.(flights := s.flights[rid := Keyed(id, key, req, oneShot)])
  }

  // The INSERT of a row under a key.
  function Inserted(rows: Store.Rows, key: string, row: Store.Upload): Store.Rows
  {
    if key in rows then rows else rows[key := row]
  }

  lemma SignThenRecord(c: Config, s: State, rid: nat, id: Identity, key: string, req: Request)
    requires rid !in s.flights
    ensures var cap := C.Capability(key, req.size, req.contentType, s.now + PRESIGN_TTL);
            Next(c, Next(c, InHand(s, rid, id, key, req, false), Sign(rid)), Record(rid))
            == if !ValidKey(key) then s
               else s.(signed := s.signed + {C.Canonical(cap)}, issues := s.issues + {Issue(cap, id)},
                       rows := Inserted(s.rows, key, Row(id, req.size, req, C.Unix(s.now))))
  {
    hide Next, ValidKey, C.Canonical;
    var h := InHand(s, rid, id, key, req, false);
    var t := DoSign(h, Sign(rid));
    Dispatch(c, h, Sign(rid));
    Dispatch(c, t, Record(rid));
    assert h.flights - {rid} == s.flights;
    if ValidKey(key) { assert t.flights - {rid} == s.flights; }
  }

  lemma WriteThenRecord(c: Config, s: State, rid: nat, id: Identity, key: string, req: Request, body: Reader)
    requires rid !in s.flights
    ensures var r := Outcome(req.size, body);
            Next(c, Next(c, InHand(s, rid, id, key, req, true), Step.Write(rid, body)), Record(rid))
            == if !ValidKey(key) || r.Err? then s
               else s.(objects := s.objects[key := r.value],
                       rows := Inserted(s.rows, key, Row(id, |r.value|, req, C.Unix(s.now))))
  {
    hide Next, ValidKey, Outcome;
    var h := InHand(s, rid, id, key, req, true);
    var t := DoWrite(h, Step.Write(rid, body));
    Dispatch(c, h, Step.Write(rid, body));
    Dispatch(c, t, Record(rid));
    assert h.flights - {rid} == s.flights;
    if ValidKey(key) && Outcome(req.size, body).Ok? { assert t.flights - {rid} == s.flights; }
  }

  // A whole presign request that is let through.
  lemma PresignRun(c: Config, s: State, rid: nat, id: Identity, placeName: string, req: Request, stamp: Stamp,
                   random: Option<Bytes>, key: string)
    requires rid !in s.flights && Admits(c, s.rows, id, placeName, req, false) && ValidKey(key)
    requires DeriveKey(DerivationOf(Resolve(c.registry, placeName).value, id, req, stamp, random), c.digest) == Ok(key)
    ensures var cap := C.Capability(key, req.size, req.contentType, s.now + PRESIGN_TTL);
            Run(c, s, PresignSteps(rid, id, placeName, req, stamp, random))
            == Drawing(s, key, req).(
                 signed := s.signed + {C.Canonical(cap)}, issues := s.issues + {Issue(cap, id)},
                 rows := Inserted(s.rows, key, Row(id, req.size, req, C.Unix(s.now))))
  {
    hide Next, Run, ValidKey, C.Canonical, DeriveKey, Admits;
    RunOfFour(c, s, Begin(rid, id, placeName, req, false), Derive(rid, stamp, random), Sign(rid), Record(rid));
    BeginThenDerive(c, s, rid, id, placeName, req, false, stamp, random);
    SignThenRecord(c, Drawing(s, key, req), rid, id, key, req);
  }

  // A whole one-shot upload that is let through.
  lemma UploadRun(c: Config, s: State, rid: nat, id: Identity, placeName: string, req: Request, stamp: Stamp,
                  random: Option<Bytes>, key: string, body: Reader)
    requires rid !in s.flights && Admits(c, s.rows, id, placeName, req, true) && ValidKey(key)
    requires DeriveKey(DerivationOf(Resolve(c.registry, placeName).value, id, req, stamp, random), c.digest) == Ok(key)
    requires Outcome(req.size, body).Ok?
    ensures var value := Outcome(req.size, body).value;
            Run(c, s, UploadSteps(rid, id, placeName, req, stamp, random, body))
            == Drawing(s, key, req).(
                 objects := s.objects[key := value],
                 rows := Inserted(s.rows, key, Row(id, |value|, req, C.Unix(s.now))))
  {
    hide Next, Run, ValidKey, DeriveKey, Admits, Outcome;
    RunOfFour(c, s, Begin(rid, id, placeName, req, true), Derive(rid, stamp, random),
              Step.Write(rid, body), Record(rid));
    BeginThenDerive(c, s, rid, id, placeName, req, true, stamp, random);
    WriteThenRecord(c, Drawing(s, key, req), rid, id, key, req, body);
  }

  lemma CommitOf(c: Config, s: State, rid: nat, cap: C.Capability, body: Reader)
    requires rid !in s.flights
    ensures Next(c, s.(flights := s.flights[rid := Putting(cap)]), PutCommit(rid, body))
            == if FileOf(cap.key).Some? && Outcome(cap.maxSize, body).Ok?
               then s.(objects := s.objects[FileOf(cap.key).value := Outcome(cap.maxSize, body).value])
               else s
    ensures Next(c, s, PutCommit(rid, body)) == s
  {
    hide Next, Outcome, FileOf;
    var t := s.(flights := s.flights[rid := Putting(cap)]);
    Dispatch(c, t, PutCommit(rid, body));
    Dispatch(c, s, PutCommit(rid, body));
    assert t.flights - {rid} == s.flights;
  }

  lemma PutRun(c: Config, s: State, rid: nat, key: string, q: C.Query, contentType: string, contentLength: int,
      body: Reader)
    requires rid !in s.flights
    ensures var cap := C.AdmitPut(key, q, s.now, contentType, contentLength);
            Run(c, s, [PutBegin(rid, key, q, contentType, contentLength), PutCommit(rid, body)])
            == if cap.Ok? && C.Canonical(cap.value) in s.signed
                  && FileOf(key).Some? && Outcome(cap.value.maxSize, body).Ok?
               then s.(objects := s.objects[FileOf(key).value := Outcome(cap.value.maxSize, body).value])
               else s
  {
    hide Next, Run, Outcome, FileOf, C.Canonical;
    C.AdmittedKey(key, q, s.now, contentType, contentLength);
    hide C.AdmitPut;
    var cap := C.AdmitPut(key, q, s.now, contentType, contentLength);
    RunOfTwo(c, s, PutBegin(rid, key, q, contentType, contentLength), PutCommit(rid, body));
    Dispatch(c, s, PutBegin(rid, key, q, contentType, contentLength));
    CommitOf(c, s, rid, if cap.Ok? then cap.value else C.Capability("", 0, "", 0), body);
  }

  lemma DeleteRun(c: Config, s: State, rid: nat, id: Identity, key: string, fault: bool)
    requires rid !in s.flights
    ensures Run(c, s, [DeleteRow(rid, id, key), RemoveObject(rid, fault), RemoveObject(rid, false)])
            == if MayDelete(s.rows, id, key)
               then s.(rows := s.rows - {key}, objects := if ValidKey(key) && !fault then s.objects - {key}
                   else s.objects)
               else s
  {
    hide ValidKey;
    var a, b, d := DeleteRow(rid, id, key), RemoveObject(rid, fault), RemoveObject(rid, false);
    RunOfThree(c, s, a, b, d);
    var s1 := DoDeleteRow(s, a);
    if s1 != s {
      var s2 := DoRemoveObject(s1, b);
      assert s2.flights - {rid} == s.flights;
    }
  }

  // ------------------------------------------- scripts for a grant of a place

  // No quota: the places alone decide.
  function Unlimited(r: Registry, digest: Digest): Config { Config(r, Quotas.Policy(0, map[]), digest) }

  // The quota check lets id store this many more bytes.
  ghost predicate HasRoom(c: Config, s: State, id: Identity, size: int)
  {
    id.anonymous || Quotas.Check(c.quota, id.subject, Store.UsageReading(s.rows, OwnerId(id)), size).None?
  }

  function PresignOf(rid: nat, id: Identity, g: C.Grant, w: Source): seq<Step>
  {
    PresignSteps(rid, id, w.placeName, RequestOf(g, w), w.stamp, Some(w.random))
  }

  function CapFor(g: C.Grant, expires: int): C.Capability { C.Capability(g.key, g.maxSize, g.contentType, expires) }

  lemma PresignGrants(c: Config, s: State, rid: nat, id: Identity, g: C.Grant, w: Source)
    requires IssuedBy(c.registry, c.digest, id, g, w) && rid !in s.flights && HasRoom(c, s, id, g.maxSize)
    ensures var cap, req := CapFor(g, s.now + PRESIGN_TTL), RequestOf(g, w);
            Run(c, s, PresignOf(rid, id, g, w))
            == Drawing(s, g.key, req).(
                 signed := s.signed + {C.Canonical(cap)}, issues := s.issues + {Issue(cap, id)},
                 rows := Inserted(s.rows, g.key, Row(id, g.maxSize, req, C.Unix(s.now))))
  {
    hide Run, DeriveKey, ValidKey, C.Canonical, Validate, Resolve;
    PresignRun(c, s, rid, id, w.placeName, RequestOf(g, w), w.stamp, Some(w.random), g.key);
  }

  function UploadOf(rid: nat, id: Identity, g: C.Grant, w: Source, body: Bytes): seq<Step>
  {
    UploadSteps(rid, id, w.placeName, RequestOf(g, w), w.stamp, Some(w.random), Whole(body))
  }

  // A body that arrives in one piece.
  function Whole(body: Bytes): Reader { Reader([body], false) }

  lemma WholeOutcome(limit: int, body: Bytes)
    requires limit != MAX_INT64 && IsInt64(limit)
    ensures Body(Whole(body).chunks) == body
    ensures limit <= 0 || |body| <= limit ==> Outcome(limit, Whole(body)) == Ok(body)
  {
    assert [body][..0] == [] && Body([]) == [];
    AcceptedExactly(limit, Whole(body));
    hide Outcome;
  }

  lemma UploadGrants(c: Config, s: State, rid: nat, id: Identity, g: C.Grant, w: Source, body: Bytes)
    requires IssuedBy(c.registry, c.digest, id, g, w) && rid !in s.flights && HasRoom(c, s, id, g.maxSize)
    requires |body| == g.maxSize < MAX_INT64
    ensures Run(c, s, UploadOf(rid, id, g, w, body))
            == Drawing(s, g.key, RequestOf(g, w)).(
                 objects := s.objects[g.key := body],
                 rows := Inserted(s.rows, g.key, Row(id, |body|, RequestOf(g, w), C.Unix(s.now))))
  {
    hide Run, DeriveKey, ValidKey, Validate, Resolve, Outcome;
    WholeOutcome(g.maxSize, body);
    UploadRun(c, s, rid, id, w.placeName, RequestOf(g, w), w.stamp, Some(w.random), g.key, Whole(body));
  }

  // A PUT that presents h, and the tag of its canonical string.
  function PutOf(rid: nat, h: C.Grant, expires: int, body: Bytes): seq<Step>
  {
    [PutBegin(rid, h.key, C.SignUpload(CapFor(h, expires)), h.contentType, 0), PutCommit(rid, Whole(body))]
  }

  predicate Presentable(s: State, h: C.Grant, expires: int)
  {
    && C.Representable(CapFor(h, expires)) && s.now <= C.Unix(expires) * C.SECOND
    && C.Canonical(CapFor(h, expires)) in s.signed
  }

  lemma PutAdmitted(s: State, h: C.Grant, expires: int)
    requires Presentable(s, h, expires)
    ensures var cap := CapFor(h, expires);
            && C.AdmitPut(h.key, C.SignUpload(cap), s.now, h.contentType, 0) == Ok(C.Truncated(cap))
            && C.Canonical(C.Truncated(cap)) == C.Canonical(cap)
  {
    var cap := CapFor(h, expires);
    C.SignThenVerify(cap, s.now);
    C.SameCanonicalExactly(cap, C.Truncated(cap));
    hide C.VerifyUpload, C.SignUpload, C.Canonical;
  }

  lemma PutLands(c: Config, s: State, rid: nat, h: C.Grant, expires: int, body: Bytes)
    requires rid !in s.flights && Presentable(s, h, expires) && FileOf(h.key).Some?
    requires h.maxSize != MAX_INT64 && (h.maxSize <= 0 || |body| <= h.maxSize)
    ensures Run(c, s, PutOf(rid, h, expires, body)) == s.(objects := s.objects[FileOf(h.key).value := body])
  {
    PutAdmitted(s, h, expires);
    WholeOutcome(h.maxSize, body);
    hide Run, Outcome, FileOf, C.Canonical, C.AdmitPut, C.SignUpload;
    PutRun(c, s, rid, h.key, C.SignUpload(CapFor(h, expires)), h.contentType, 0, Whole(body));
  }

  // ----------------------------------------------- what surrounds each step

  // Unique segments do not repeat: 48 random bits after a millisecond.
  predicate FreshDraw(c: Config, s: State, e: Step)
  {
    e.Derive? && e.rid in s.flights && s.flights[e.rid].Checked? ==>
      var f := s.flights[e.rid];
      var key := DeriveKey(DerivationOf(f.place, f.id, f.req, e.stamp, e.random), c.digest);
      key.Ok? && IsDumpKey(key.value) ==> UniqueOf(key.value) !in s.segments
  }

  // The size of a one-shot upload is that of its file, which multipart parsing
  // has read.
  predicate WholeFile(s: State, e: Step)
  {
    e.Write? && e.rid in s.flights && s.flights[e.rid].Keyed? ==>
      |Body(e.body.chunks)| == s.flights[e.rid].req.size < MAX_INT64
  }

  ghost function Plausible(c: Config): (State, Step) -> bool
  {
    (s: State, e: Step) => FreshDraw(c, s, e) && WholeFile(s, e)
  }

  lemma FirstSteps(c: Config, s: State, steps: seq<Step>)
    ensures |steps| >= 1 ==> Run(c, s, steps[..0]) == s
    ensures |steps| >= 2 ==> Run(c, s, steps[..1]) == Next(c, s, steps[0])
    ensures |steps| >= 3 ==> Run(c, s, steps[..2]) == Next(c, Next(c, s, steps[0]), steps[1])
    ensures |steps| >= 4 ==> Run(c, s, steps[..3]) == Next(c, Next(c, Next(c, s, steps[0]), steps[1]), steps[2])
  {
    hide Next, Run;
    if |steps| >= 1 { RunSnoc(c, s, [], steps[0]); assert steps[..0] == []; }
    if |steps| >= 2 { assert steps[..1] == [] + [steps[0]]; }
    if |steps| >= 3 { RunOfTwo(c, s, steps[0], steps[1]); assert steps[..2] == [steps[0], steps[1]]; }
    if |steps| >= 4 {
      RunOfThree(c, s, steps[0], steps[1], steps[2]);
      assert steps[..3] == [steps[0], steps[1], steps[2]];
    }
  }

  // The key is new to the run.
  predicate Undrawn(s: State, key: string) { IsDumpKey(key) ==> UniqueOf(key) !in s.segments }

  lemma DerivePlausible(c: Config, s: State, rid: nat, id: Identity, g: C.Grant, w: Source, oneShot: bool)
    requires IssuedBy(c.registry, c.digest, id, g, w) && rid !in s.flights && Undrawn(s, g.key)
    ensures FreshDraw(c, Next(c, s, Begin(rid, id, w.placeName, RequestOf(g, w), oneShot)),
                      Derive(rid, w.stamp, Some(w.random)))
  {
    hide Next, DeriveKey, ValidKey, IsDumpKey, UniqueOf, Admits, Validate;
    Dispatch(c, s, Begin(rid, id, w.placeName, RequestOf(g, w), oneShot));
    AdmitsResolves(c, s.rows, id, w.placeName, RequestOf(g, w), oneShot);
  }

  lemma WritePlausible(c: Config, s: State, rid: nat, id: Identity, g: C.Grant, w: Source, body: Bytes)
    requires rid !in s.flights && |body| == g.maxSize < MAX_INT64
    ensures var a, b := Begin(rid, id, w.placeName, RequestOf(g, w), true), Derive(rid, w.stamp, Some(w.random));
            WholeFile(Next(c, Next(c, s, a), b), Step.Write(rid, Whole(body)))
  {
    WholeOutcome(g.maxSize, body);
    hide Next, DeriveKey, Admits, Body, WithDraw;
    BeginThenDerive(c, s, rid, id, w.placeName, RequestOf(g, w), true, w.stamp, Some(w.random));
  }

  // Only derivations and one-shot writes have surroundings.
  lemma OtherPlausible(c: Config, s: State, e: Step)
    ensures !e.Derive? ==> FreshDraw(c, s, e)
    ensures !e.Write? ==> WholeFile(s, e)
  {
  }

  lemma FourPlausible(c: Config, s: State, steps: seq<Step>)
    requires |steps| == 4 && !steps[0].Derive? && !steps[0].Write? && !steps[3].Derive? && !steps[3].Write?
    requires FreshDraw(c, Next(c, s, steps[0]), steps[1]) && !steps[1].Write?
    requires WholeFile(Next(c, Next(c, s, steps[0]), steps[1]), steps[2]) && !steps[2].Derive?
    ensures Along(c, s, steps, Plausible(c))
  {
    hide Next, Run, FreshDraw, WholeFile;
    FirstSteps(c, s, steps);
    forall n | 0 <= n < 4
      ensures FreshDraw(c, Run(c, s, steps[..n]), steps[n]) && WholeFile(Run(c, s, steps[..n]), steps[n])
    {
      OtherPlausible(c, Run(c, s, steps[..n]), steps[n]);
    }
  }

  lemma PresignPlausible(c: Config, s: State, rid: nat, id: Identity, g: C.Grant, w: Source)
    requires IssuedBy(c.registry, c.digest, id, g, w) && rid !in s.flights && Undrawn(s, g.key)
    ensures Along(c, s, PresignOf(rid, id, g, w), Plausible(c))
  {
    hide Next, Run, IssuedBy, Undrawn, FreshDraw, Along;
    DerivePlausible(c, s, rid, id, g, w, false);
    FourPlausible(c, s, PresignOf(rid, id, g, w));
  }

  lemma UploadPlausible(c: Config, s: State, rid: nat, id: Identity, g: C.Grant, w: Source, body: Bytes)
    requires IssuedBy(c.registry, c.digest, id, g, w) && rid !in s.flights && Undrawn(s, g.key)
    requires |body| == g.maxSize < MAX_INT64
    ensures Along(c, s, UploadOf(rid, id, g, w, body), Plausible(c))
  {
    hide Next, Run, IssuedBy, Undrawn, FreshDraw, WholeFile, Along;
    DerivePlausible(c, s, rid, id, g, w, true);
    WritePlausible(c, s, rid, id, g, w, body);
    FourPlausible(c, s, UploadOf(rid, id, g, w, body));
  }

  lemma PutPlausible(c: Config, s: State, rid: nat, h: C.Grant, expires: int, body: Bytes)
    ensures Along(c, s, PutOf(rid, h, expires, body), Plausible(c))
  {
    hide Next, Run;
  }

  lemma DeletePlausible(c: Config, s: State, rid: nat, id: Identity, key: string)
    ensures Along(c, s, DeleteOf(rid, id, key), Plausible(c))
  {
    hide Next, Run;
  }

  function DeleteOf(rid: nat, id: Identity, key: string): seq<Step>
  {
    [DeleteRow(rid, id, key), RemoveObject(rid, false), RemoveObject(rid, false)]
  }
}
