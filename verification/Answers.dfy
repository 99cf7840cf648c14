/** What the upload handlers answer, and when: each refusal with its exact
    condition on the request, the definitions and the usage, and how long a granted
    capability lives. */
module Answers {
  import opened Wrappers
  import opened Decimal
  import opened Paths
  import opened Timestamps
  import opened Places
  import opened ObjectKeys
  import opened Transfers
  import opened Gateway
  import opened Grants
  import opened Scripts
  import Admissions
  import C = Capabilities
  import Quotas
  import Store
  import Auth

  datatype Response =
    | Throttled | Unauthenticated | Refused(why: PlaceError) | BadRequest | OverQuota | Internal
    | Forbidden | NotFound | Removed | Cleared(count: nat)
    | Granted(key: string, query: C.Query) | Stored(key: string, size: int) | ObjectTooBig
    | PutRefused(reason: C.PutRefusal)

  // Who goes on to the request itself, or the answer.
  function PastFront(stage: Admissions.Stage, who: Admissions.Who): Result<Identity, Response>
  {
    if stage.AddressStopped? || stage.CallerStopped? then Err(Throttled)
    else if who.Err? then Err(Unauthenticated)
    else Ok(who.value)
  }

  // Resolve, Validate and the quota check.
  ghost function PlaceFor(c: Config, rows: Store.Rows, id: Identity, placeName: string, req: Request)
    : Result<Place, Response>
  {
    var p := Resolve(c.registry, placeName);
    if p.Err? then Err(Refused(p.error))
    else if Validate(p.value, req, id.anonymous).Some? then Err(Refused(Validate(p.value, req, id.anonymous).value))
    else if id.anonymous then Ok(p.value)
    else
      var over := Quotas.Check(c.quota, id.subject, Store.UsageReading(rows, OwnerId(id)), req.size);
      if over.None? then Ok(p.value)
      else if over.value == Quotas.Exceeded then Err(OverQuota)
      else Err(Internal)
  }

  // And DeriveKey.
  ghost function KeyFor(c: Config, rows: Store.Rows, id: Identity, placeName: string, req: Request, stamp: Stamp,
      random: Option<Bytes>): (r: Result<string, Response>)
    ensures r.Err? ==> r.error.Refused? || r.error == OverQuota || r.error == Internal
  {
    var place := PlaceFor(c, rows, id, placeName, req);
    if place.Err? then Err(place.error)
    else
      var key := DeriveKey(DerivationOf(place.value, id, req, stamp, random), c.digest);
      if key.Err? then Err(Refused(key.error)) else Ok(key.value)
  }

  ghost function PresignAnswer(c: Config, rows: Store.Rows, now: int, id: Identity, placeName: string, req: Request,
      stamp: Stamp, random: Option<Bytes>): Response
  {
    var key := KeyFor(c, rows, id, placeName, req, stamp, random);
    if req.filename == "" then BadRequest
    else if key.Err? then key.error
    else if !ValidKey(key.value) || key.value in rows then Internal
    else Granted(key.value, C.SignUpload(C.Capability(key.value, req.size, req.contentType, now + 900_000_000_000)))
  }

  ghost function UploadAnswer(c: Config, rows: Store.Rows, id: Identity, placeName: string, req: Request, stamp: Stamp,
      random: Option<Bytes>, body: Reader): Response
  {
    var key := KeyFor(c, rows, id, placeName, req, stamp, random);
    if key.Err? then key.error
    else if !ValidKey(key.value) then Internal
    else if Outcome(req.size, body).Err? then
      if Outcome(req.size, body).error == ObjectTooLarge then ObjectTooBig else Internal
    else if key.value in rows then Internal
    else Stored(key.value, |Outcome(req.size, body).value|)
  }

  lemma PlaceForAdmitted(c: Config, rows: Store.Rows, id: Identity, placeName: string, req: Request)
    ensures PlaceFor(c, rows, id, placeName, req).Ok? <==> Admits(c, rows, id, placeName, req, true)
    ensures PlaceFor(c, rows, id, placeName, req).Ok? ==>
              Resolve(c.registry, placeName) == Ok(PlaceFor(c, rows, id, placeName, req).value)
  {
    hide Resolve, Validate, Quotas.Check, Store.UsageReading;
  }

  // ------------------------------------------------------ refusals, exactly

  // Why a request gets no key, by the definitions of the places, the quota and
  // the bytes its owner holds.
  ghost function Refusal(defs: map<string, Definition>, defaultName: string, globalMaxSize: int, quota: Quotas.Policy,
      used: int, id: Identity, placeName: string, req: Request, random: Option<Bytes>): Option<Response>
  {
    var n := if placeName == "" then defaultName else placeName;
    if n == "" then Some(Refused(NoPlaceSpecified))
    else if n !in defs then Some(Refused(UnknownPlace))
    else
      var d := defs[n];
      var cap := if d.maxSize == 0 then globalMaxSize else d.maxSize;
      var limit := if id.subject in quota.overrides then quota.overrides[id.subject] else quota.limit;
      if id.anonymous && (d.requireIdentity || d.strategy == "account") then Some(Refused(IdentityRequired))
      else if req.size <= 0 then Some(Refused(InvalidRequest))
      else if cap > 0 && req.size > cap then Some(Refused(TooLarge))
      else if d.allowedMime != [] && req.contentType !in d.allowedMime then Some(Refused(MimeNotAllowed))
      else if !id.anonymous && limit > 0 && used > 0x7FFF_FFFF_FFFF_FFFF then Some(Internal)
      else if !id.anonymous && limit > 0 && limit < used + req.size <= 0x7FFF_FFFF_FFFF_FFFF then Some(OverQuota)
      else if d.strategy != "account" && random.None? then Some(Refused(RandomnessFailed))
      else None
  }

  lemma ResolveErrors(r: Registry, name: string)
    requires Resolve(r, name).Err?
    ensures Resolve(r, name).error == NoPlaceSpecified || Resolve(r, name).error == UnknownPlace
  {
  }

  lemma ValidateErrors(p: Place, req: Request, anonymous: bool)
    ensures Validate(p, req, anonymous)
            == if anonymous && p.requireIdentity then Some(IdentityRequired)
               else if req.size <= 0 then Some(InvalidRequest)
               else if p.maxSize > 0 && req.size > p.maxSize then Some(TooLarge)
               else if p.allowedMime != [] && req.contentType !in p.allowedMime then Some(MimeNotAllowed)
               else None
  {
  }

  // The quota check, in terms of what the owner holds.
  lemma QuotaVerdict(p: Quotas.Policy, account: string, used: int, size: int)
    requires 0 <= used && 0 < size <= MAX_INT64 && IsInt64(Quotas.Limit(p, account))
    ensures var limit := if account in p.overrides then p.overrides[account] else p.limit;
            Quotas.Check(p, account, if used <= MAX_INT64 then Some(used) else None, size)
            == if limit > 0 && used > 0x7FFF_FFFF_FFFF_FFFF then Some(Quotas.ReadFailed)
               else if limit > 0 && limit < used + size <= 0x7FFF_FFFF_FFFF_FFFF then Some(Quotas.Exceeded)
               else None
  {
  }

  lemma OnlyRandomnessFails(d: Derivation, digest: Digest)
    requires !(d.anonymous && d.place.strategy == "account")
    requires d.place.strategy == "dump" || d.place.strategy == "account"
    ensures DeriveKey(d, digest).Err? <==> d.place.strategy == "dump" && d.random.None?
    ensures DeriveKey(d, digest).Err? ==> DeriveKey(d, digest).error == RandomnessFailed
  {
    hide PathJoin, Sanitize, UniqueSegment, OwnerSegment;
  }

  // The refusals of Resolve, Validate and the quota check, by the definitions.
  lemma PlaceRefusals(c: Config, defs: map<string, Definition>, defaultName: string, globalMaxSize: int,
                      rows: Store.Rows, id: Identity, placeName: string, req: Request)
    requires IsRegistry(c.registry, defs, defaultName, globalMaxSize)
    requires IsInt64(req.size) && IsInt64(Quotas.Limit(c.quota, id.subject)) && Store.NonNegative(rows)
    ensures var r := PlaceFor(c, rows, id, placeName, req);
            var refusal := Refusal(defs, defaultName, globalMaxSize, c.quota, Store.Usage(rows, OwnerId(id)), id,
                                   placeName, req, Some([]));
            && (r.Err? <==> refusal.Some?) && (r.Err? ==> r.error == refusal.value)
            && (r.Ok? ==> Resolve(c.registry, placeName) == Ok(r.value))
            && (r.Ok? && id.anonymous ==> r.value.strategy != "account")
  {
    hide Store.Usage, Quotas.Check, Quotas.Limit, IsRegistry, Resolve, Validate, Store.NonNegative;
    var used := Store.Usage(rows, OwnerId(id));
    Store.UsageNonNegative(rows, OwnerId(id));
    ResolvedPolicy(c.registry, defs, defaultName, globalMaxSize, placeName);
    var p := Resolve(c.registry, placeName);
    if p.Err? {
      ResolveErrors(c.registry, placeName);
    } else {
      ValidateErrors(p.value, req, id.anonymous);
      if Validate(p.value, req, id.anonymous).None? { QuotaVerdict(c.quota, id.subject, used, req.size); }
    }
  }

  // The refusals are exactly these: on a registry built from these definitions,
  // with 64-bit sizes and quotas, every other request gets a key, and the driver
  // takes it exactly when its place's prefix is relative and does not climb.
  lemma {:induction false} RefusalsExactly(c: Config, defs: map<string, Definition>, defaultName: string,
      globalMaxSize: int, rows: Store.Rows, id: Identity, placeName: string, req: Request, stamp: Stamp,
      random: Option<Bytes>)
    requires IsRegistry(c.registry, defs, defaultName, globalMaxSize)
    requires IsInt64(req.size) && IsInt64(Quotas.Limit(c.quota, id.subject)) && Store.NonNegative(rows)
    ensures var r := KeyFor(c, rows, id, placeName, req, stamp, random);
            var refusal := Refusal(defs, defaultName, globalMaxSize, c.quota, Store.Usage(rows, OwnerId(id)), id,
                                   placeName, req, random);
            && (r.Err? <==> refusal.Some?) && (r.Err? ==> r.error == refusal.value)
            && (r.Ok? ==>
                  var n := if placeName == "" then defaultName else placeName;
                  var prefix := if defs[n].prefix == "" then n else defs[n].prefix;
                  ValidKey(r.value) <==> !Rooted(prefix) && ".." !in CleanSegs(prefix))
  {
    hide DeriveKey, ValidKey, Store.Usage, Quotas.Limit, IsRegistry, Resolve, Validate, CleanSegs, PlaceFor;
    hide Store.NonNegative;
    PlaceRefusals(c, defs, defaultName, globalMaxSize, rows, id, placeName, req);
    ResolvedPolicy(c.registry, defs, defaultName, globalMaxSize, placeName);
    var place := PlaceFor(c, rows, id, placeName, req);
    if place.Ok? {
      var d := DerivationOf(place.value, id, req, stamp, random);
      OnlyRandomnessFails(d, c.digest);
      if DeriveKey(d, c.digest).Ok? { DerivedKeyValidExactly(d, c.digest); }
    }
  }

  // The two answers, whole.
  lemma {:induction false} AnswersExactly(c: Config, defs: map<string, Definition>, defaultName: string,
      globalMaxSize: int, rows: Store.Rows, now: int, id: Identity, placeName: string, req: Request, stamp: Stamp,
      random: Option<Bytes>, body: Reader)
    requires IsRegistry(c.registry, defs, defaultName, globalMaxSize) && Store.NonNegative(rows)
    requires IsInt64(req.size) && req.size != MAX_INT64 && IsInt64(Quotas.Limit(c.quota, id.subject))
    ensures var refusal := Refusal(defs, defaultName, globalMaxSize, c.quota, Store.Usage(rows, OwnerId(id)), id,
                                   placeName, req, random);
            var key := KeyFor(c, rows, id, placeName, req, stamp, random);
            var presigned := PresignAnswer(c, rows, now, id, placeName, req, stamp, random);
            var uploaded := UploadAnswer(c, rows, id, placeName, req, stamp, random, body);
            && (key.Err? <==> refusal.Some?)
            && if key.Err? then
                 uploaded == refusal.value && presigned == if req.filename == "" then BadRequest else refusal.value
               else
                 var n := if placeName == "" then defaultName else placeName;
                 var prefix := if n in defs && defs[n].prefix != "" then defs[n].prefix else n;
                 var outside := Rooted(prefix) || ".." in CleanSegs(prefix);
                 && uploaded == (if outside then Internal
                                 else if |Body(body.chunks)| > req.size then ObjectTooBig
                                 else if body.fails || key.value in rows then Internal
                                 else Stored(key.value, |Body(body.chunks)|))
                 && presigned == if req.filename == "" then BadRequest
                                 else if outside || key.value in rows then Internal
                                 else Granted(key.value,
                                              C.SignUpload(C.Capability(key.value, req.size, req.contentType,
                                                                        now + 900_000_000_000)))
  {
    hide ValidKey, Outcome, C.SignUpload, Store.Usage, IsRegistry, CleanSegs, Body, Quotas.Limit, DeriveKey, Validate;
    hide Resolve, Store.NonNegative;
    RefusalsExactly(c, defs, defaultName, globalMaxSize, rows, id, placeName, req, stamp, random);
    AcceptedExactly(req.size, body);
    if KeyFor(c, rows, id, placeName, req, stamp, random).Ok? {
      KeyNeedsSize(c, rows, id, placeName, req, stamp, random);
    }
    hide KeyFor;
  }

  lemma KeyNeedsSize(c: Config, rows: Store.Rows, id: Identity, placeName: string, req: Request, stamp: Stamp,
                     random: Option<Bytes>)
    requires KeyFor(c, rows, id, placeName, req, stamp, random).Ok?
    ensures req.size > 0
  {
    hide Resolve, DeriveKey, Quotas.Check, Store.UsageReading;
  }

  // -------------------------------------------------- the life of a capability

  // What was signed stays signed, and the clock does not go back.
  lemma {:induction false} SignedStays(c: Config, s: State, steps: seq<Step>)
    ensures s.signed <= Run(c, s, steps).signed && s.now <= Run(c, s, steps).now
  {
    hide Next;
    if steps != [] {
      SignedStays(c, s, steps[..|steps| - 1]);
      StepKeepsSigned(c, Run(c, s, steps[..|steps| - 1]), steps[|steps| - 1]);
    }
  }

  lemma StepKeepsSigned(c: Config, s: State, e: Step)
    ensures s.signed <= Next(c, s, e).signed && s.now <= Next(c, s, e).now
  {
    hide Admits, DeriveKey, ValidKey, Outcome, FileOf, C.Canonical, C.AdmitPut, IsDumpKey, UniqueOf, Enumerates;
  }

  lemma GrantedSigns(c: Config, s: State, rid: nat, id: Identity, placeName: string, req: Request, stamp: Stamp,
                     random: Option<Bytes>)
    requires rid !in s.flights && PresignAnswer(c, s.rows, s.now, id, placeName, req, stamp, random).Granted?
    ensures var r := PresignAnswer(c, s.rows, s.now, id, placeName, req, stamp, random);
            var cap := C.Capability(r.key, req.size, req.contentType, s.now + 900_000_000_000);
            && r.query == C.SignUpload(cap) && ValidKey(r.key) && req.size > 0
            && C.Canonical(cap) in Run(c, s, PresignSteps(rid, id, placeName, req, stamp, random)).signed
  {
    hide Resolve, DeriveKey, ValidKey, Run, C.Canonical, PlaceFor, Admits;
    var r := PresignAnswer(c, s.rows, s.now, id, placeName, req, stamp, random);
    PlaceForAdmitted(c, s.rows, id, placeName, req);
    AdmitsResolves(c, s.rows, id, placeName, req, false);
    KeyNeedsSize(c, s.rows, id, placeName, req, stamp, random);
    PresignRun(c, s, rid, id, placeName, req, stamp, random, r.key);
  }

  lemma SignedCapability(cap: C.Capability, now: int, contentLength: int)
    requires C.Representable(cap) && 0 < cap.maxSize && contentLength <= cap.maxSize
    ensures C.SignUpload(cap).sig == C.MacOf(C.Canonical(cap))
    ensures var end := cap.expires / 1_000_000_000 * 1_000_000_000;
            var trimmed := C.Capability(cap.key, cap.maxSize, cap.contentType, end);
            && C.AdmitPut(cap.key, C.SignUpload(cap), now, cap.contentType, contentLength)
               == (if now <= end then Ok(trimmed) else Err(C.Gone))
            && C.Canonical(trimmed) == C.Canonical(cap)
  {
    C.SignThenVerify(cap, now);
    C.SameCanonicalExactly(cap, C.Truncated(cap));
    hide C.VerifyUpload, C.Canonical;
  }

  // A presigned upload lives for 15 minutes, cut to the whole second: whatever
  // happens in between, a PUT with the query that was returned, the request's
  // type, a covered length and a whole body within the size is admitted and lands
  // exactly until then, and is refused as gone afterwards.
  lemma {:induction false} GrantLandsExactly(c: Config, s: State, rid: nat, id: Identity, placeName: string,
      req: Request, stamp: Stamp, random: Option<Bytes>, steps: seq<Step>, put: nat, contentLength: int, body: Reader)
    requires rid !in s.flights && PresignAnswer(c, s.rows, s.now, id, placeName, req, stamp, random).Granted?
    requires req.size < MAX_INT64 && 0 <= s.now <= MAX_INT64
    requires put !in Run(c, Run(c, s, PresignSteps(rid, id, placeName, req, stamp, random)), steps).flights
    requires contentLength <= req.size && |Body(body.chunks)| <= req.size && !body.fails
    ensures var r := PresignAnswer(c, s.rows, s.now, id, placeName, req, stamp, random);
            var u := Run(c, Run(c, s, PresignSteps(rid, id, placeName, req, stamp, random)), steps);
            var end := (s.now + 900_000_000_000) / 1_000_000_000 * 1_000_000_000;
            && r.query.sig.MacOf? && r.query.sig.message in u.signed
            && C.AdmitPut(r.key, r.query, u.now, req.contentType, contentLength)
               == (if u.now <= end then Ok(C.Capability(r.key, req.size, req.contentType, end)) else Err(C.Gone))
            && Run(c, u, [PutBegin(put, r.key, r.query, req.contentType, contentLength), PutCommit(put, body)])
               == if u.now <= end then u.(objects := u.objects[r.key := Body(body.chunks)]) else u
  {
    var r := PresignAnswer(c, s.rows, s.now, id, placeName, req, stamp, random);
    var t := Run(c, s, PresignSteps(rid, id, placeName, req, stamp, random));
    var u := Run(c, t, steps);
    GrantedSigns(c, s, rid, id, placeName, req, stamp, random);
    SignedStays(c, t, steps);
    var cap := C.Capability(r.key, req.size, req.contentType, s.now + 900_000_000_000);
    SignedCapability(cap, u.now, contentLength);
    ValidKeyFile(r.key);
    AcceptedExactly(req.size, body);
    PutRun(c, u, put, r.key, r.query, req.contentType, contentLength, body);
    hide PresignAnswer, Run, Outcome, FileOf, C.Canonical, C.AdmitPut, C.SignUpload, ValidKey, PresignSteps;
  }
}
