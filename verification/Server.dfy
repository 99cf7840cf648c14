/** The request handlers as they run: effects in sequence on the limiter, the
    store and the driver, with early exits. Each is shown to take exactly the
    steps of the gateway machine for its request. */
module Server {
  import opened Wrappers
  import opened Timestamps
  import opened Places
  import opened ObjectKeys
  import opened Transfers
  import opened Gateway
  import opened Grants
  import opened Scripts
  import opened Answers
  import Admissions
  import RateLimits
  import Isolation
  import C = Capabilities
  import Quotas
  import Store
  import Auth

  class Server {
    const config: Config
    const limits: Admissions.Limits
    const table: Store.Table
    const limiter: RateLimits.Memory
    const authenticator: Auth.Authenticator
    var objects: map<string, Bytes>
    var signed: set<string>
    var now: int
    ghost var flights: map<nat, Flight>
    ghost var issues: set<Issue>
    ghost var segments: map<string, Drawn>

    constructor (config: Config, limits: Admissions.Limits, authenticator: Auth.Authenticator)
      ensures View() == EMPTY && limiter.Valid() && limiter.View() == map[] && fresh(limiter) && fresh(table)
      ensures this.config == config && this.limits == limits && this.authenticator == authenticator
    {
      this.config, this.limits, this.authenticator := config, limits, authenticator;
      table := new Store.Table();
      limiter := new RateLimits.Memory();
      objects, signed, now := map[], {}, 0;
      flights, issues, segments := map[], {}, map[];
    }

    ghost function View(): State
      reads this, table
    {
      State(table.uploads, objects, signed, flights, now, issues, segments)
    }

    // The limits and authentication every upload endpoint starts with.
    method Admit(ep: Admissions.Endpoint, ip: string, bearer: Option<string>, w: Auth.World)
      returns (r: Result<Identity, Response>)
      requires limiter.Valid()
      modifies limiter, limiter.buckets.Values
      ensures limiter.Valid() && fresh(limiter.buckets.Values - old(limiter.buckets.Values))
      ensures var who := Auth.Authenticate(authenticator, bearer, w);
              var entry := Admissions.Enter(limits, old(limiter.View()), ep, ip, who, now);
              r == PastFront(entry.0, who) && limiter.View() == entry.1
    {
      hide Auth.Authenticate, RateLimits.AllowAnswer, RateLimits.AllowTable;
      var perIP := if ep.Presigning? then limits.perIP else limits.oneShot;
      var ok := limiter.Allow(Admissions.Name(ep) + ":ip:" + ip, perIP.limit, perIP.window, now);
      if !ok {
        return Err(Throttled);
      }
      var who := Auth.Authenticate(authenticator, bearer, w);
      if who.Err? {
        return Err(Unauthenticated);
      }
      if !who.value.anonymous {
        var perUser := if ep.Presigning? then limits.perUser else limits.oneShot;
        var key := Admissions.Name(ep) + ":user:" + who.value.issuer + "|" + who.value.subject;
        ok := limiter.Allow(key, perUser.limit, perUser.window, now);
        if !ok {
          return Err(Throttled);
        }
      }
      return Ok(who.value);
    }

    // Resolve, Validate and the quota check.
    method CheckUpload(id: Identity, placeName: string, req: Request) returns (place: Result<Place, Response>)
      ensures place == PlaceFor(config, table.uploads, id, placeName, req)
    {
      hide Resolve, Validate, Store.UsageReading;
      var p := Resolve(config.registry, placeName);
      if p.Err? {
        return Err(Refused(p.error));
      }
      var invalid := Validate(p.value, req, id.anonymous);
      if invalid.Some? {
        return Err(Refused(invalid.value));
      }
      if !id.anonymous {
        var used := table.ReadUsage(id.subject, id.issuer);
        var over := Quotas.Check(config.quota, id.subject, used, req.size);
        if over.Some? {
          return Err(if over.value == Quotas.Exceeded then OverQuota else Internal);
        }
      }
      return Ok(p.value);
    }

    // PresignUpload and RecordUpload for a derived key.
    method Grant(ghost rid: nat, id: Identity, key: string, req: Request) returns (r: Response)
      requires rid !in flights
      modifies this, table
      ensures View()
              == Next(config, Next(config, InHand(old(View()), rid, id, key, req, false), Sign(rid)), Record(rid))
      ensures r == if !ValidKey(key) || key in old(table.uploads) then Internal
                   else Granted(key, C.SignUpload(
                     C.Capability(key, req.size, req.contentType, old(now) + 900_000_000_000)))
      ensures table.uploads
              == if r.Granted?
                 then old(table.uploads)[key := Store.Upload(id.subject, id.issuer, req.size, req.contentType,
                                                             req.filename, old(now) / 1_000_000_000)]
                 else old(table.uploads)
    {
      hide Next, ValidKey, C.Canonical, C.SignUpload;
      SignThenRecord(config, View(), rid, id, key, req);
      var valid := ValidateKey(key);
      if !valid {
        return Internal;
      }
      var cap := C.Capability(key, req.size, req.contentType, now + PRESIGN_TTL);
      signed := signed + {C.Canonical(cap)};
      issues := issues + {Issue(cap, id)};
      var ok := table.RecordUpload(key, Row(id, req.size, req, C.Unix(now)));
      if !ok {
        return Internal;
      }
      return Granted(key, C.SignUpload(cap));
    }

    // PutObject and RecordUpload for a derived key.
    method StoreUpload(ghost rid: nat, id: Identity, key: string, req: Request, body: Reader) returns (r: Response)
      requires rid !in flights
      modifies this, table
      ensures var h := InHand(old(View()), rid, id, key, req, true);
              View() == Next(config, Next(config, h, Step.Write(rid, body)), Record(rid))
      ensures r == if !ValidKey(key) then Internal
                   else if Outcome(req.size, body).Err? then
                     if Outcome(req.size, body).error == ObjectTooLarge then ObjectTooBig else Internal
                   else if key in old(table.uploads) then Internal
                   else Stored(key, |Outcome(req.size, body).value|)
      ensures table.uploads
              == if r.Stored?
                 then old(table.uploads)[key := Store.Upload(id.subject, id.issuer, r.size, req.contentType,
                                                             req.filename, old(now) / 1_000_000_000)]
                 else old(table.uploads)
      ensures r.Stored? ==> objects == old(objects)[key := Outcome(req.size, body).value]
    {
      hide Next, ValidKey, Outcome;
      WriteThenRecord(config, View(), rid, id, key, req, body);
      var valid := ValidateKey(key);
      if !valid {
        return Internal;
      }
      var written := Outcome(req.size, body);
      if written.Err? {
        return if written.error == ObjectTooLarge then ObjectTooBig else Internal;
      }
      objects := objects[key := written.value];
      var ok := table.RecordUpload(key, Row(id, |written.value|, req, C.Unix(now)));
      if !ok {
        return Internal;
      }
      return Stored(key, |written.value|);
    }

    // Resolve to DeriveKey: the machine's first two steps.
    method CheckAndDerive(ghost rid: nat, id: Identity, placeName: string, req: Request, oneShot: bool, stamp: Stamp,
        random: Option<Bytes>)
      returns (key: Result<string, Response>)
      requires rid !in flights && (!oneShot ==> req.filename != "")
      modifies this`segments
      ensures var s1 := Next(config, old(View()), Begin(rid, id, placeName, req, oneShot));
              var s2 := Next(config, s1, Derive(rid, stamp, random));
              s2 == if key.Ok? then InHand(View(), rid, id, key.value, req, oneShot) else View()
      ensures key == KeyFor(config, table.uploads, id, placeName, req, stamp, random)
      ensures key.Err? ==> View() == old(View())
    {
      hide Next, DeriveKey, Admits, IsDumpKey, UniqueOf, PlaceFor;
      AdmitsResolves(config, table.uploads, id, placeName, req, oneShot);
      PlaceForAdmitted(config, table.uploads, id, placeName, req);
      BeginThenDerive(config, View(), rid, id, placeName, req, oneShot, stamp, random);
      var place := CheckUpload(id, placeName, req);
      if place.Err? {
        return Err(place.error);
      }
      var derived := DeriveKey(DerivationOf(place.value, id, req, stamp, random), config.digest);
      if derived.Err? {
        return Err(Refused(derived.error));
      }
      segments := WithDraw(segments, derived.value, req.size);
      return Ok(derived.value);
    }

    method PresignFor(ghost rid: nat, id: Identity, placeName: string, req: Request, stamp: Stamp,
        random: Option<Bytes>)
      returns (r: Response)
      requires rid !in flights
      modifies this, table
      ensures View() == Run(config, old(View()), PresignSteps(rid, id, placeName, req, stamp, random))
      ensures r == PresignAnswer(config, old(table.uploads), old(now), id, placeName, req, stamp, random)
      ensures r.Granted? <==> table.uploads != old(table.uploads)
      ensures r.Granted? ==>
                && r.key !in old(table.uploads)
                && table.uploads
                   == old(table.uploads)[r.key := Store.Upload(id.subject, id.issuer, req.size, req.contentType,
                                                               req.filename, old(now) / 1_000_000_000)]
    {
      hide Next, Run, C.SignUpload, KeyFor, ValidKey;
      RunOfFour(config, View(), Begin(rid, id, placeName, req, false), Derive(rid, stamp, random),
                Sign(rid), Record(rid));
      if req.filename == "" {
        NamelessStutters(config, View(), rid, id, placeName, req);
        AbsentStutters(config, View(), rid, stamp, random, Reader([], false));
        return BadRequest;
      }
      var key := CheckAndDerive(rid, id, placeName, req, false, stamp, random);
      if key.Err? {
        AbsentStutters(config, View(), rid, stamp, random, Reader([], false));
        return key.error;
      }
      r := Grant(rid, id, key.value, req);
    }

    method UploadFor(ghost rid: nat, id: Identity, placeName: string, req: Request, stamp: Stamp,
        random: Option<Bytes>, body: Reader)
      returns (r: Response)
      requires rid !in flights
      modifies this, table
      ensures View() == Run(config, old(View()), UploadSteps(rid, id, placeName, req, stamp, random, body))
      ensures r == UploadAnswer(config, old(table.uploads), id, placeName, req, stamp, random, body)
      ensures r.Stored? <==> table.uploads != old(table.uploads)
      ensures r.Stored? ==>
                && r.key !in old(table.uploads)
                && table.uploads
                   == old(table.uploads)[r.key := Store.Upload(id.subject, id.issuer, r.size, req.contentType,
                                                               req.filename, old(now) / 1_000_000_000)]
                && objects == old(objects)[r.key := Outcome(req.size, body).value]
                && r.size == |Outcome(req.size, body).value|
    {
      hide Next, Run, Outcome, KeyFor, ValidKey;
      RunOfFour(config, View(), Begin(rid, id, placeName, req, true), Derive(rid, stamp, random),
                Step.Write(rid, body), Record(rid));
      var key := CheckAndDerive(rid, id, placeName, req, true, stamp, random);
      if key.Err? {
        AbsentStutters(config, View(), rid, stamp, random, body);
        return key.error;
      }
      r := StoreUpload(rid, id, key.value, req, body);
    }

    method HandlePresign(ghost rid: nat, ip: string, bearer: Option<string>, w: Auth.World, placeName: string,
                         req: Request, stamp: Stamp, random: Option<Bytes>)
      returns (r: Response)
      requires limiter.Valid() && rid !in flights
      modifies this, table, limiter, limiter.buckets.Values
      ensures limiter.Valid()
      ensures var who := Auth.Authenticate(authenticator, bearer, w);
              var (stage, buckets) :=
                Admissions.Enter(limits, old(limiter.View()), Admissions.Presigning, ip, who, old(now));
              && limiter.View() == buckets
              && (stage == Admissions.AddressStopped || stage == Admissions.CallerStopped ==> r == Throttled)
              && (stage == Admissions.NotAuthenticated ==> r == Unauthenticated)
              && (stage != Admissions.Through ==> View() == old(View()))
              && (stage == Admissions.Through ==>
                    && who.Ok?
                    && View() == Run(config, old(View()), PresignSteps(rid, who.value, placeName, req, stamp, random))
                    && r == PresignAnswer(config, old(table.uploads), old(now), who.value, placeName, req, stamp,
                                          random)
                    && (r.Granted? <==> table.uploads != old(table.uploads))
                    && (r.Granted? ==>
                          && r.key !in old(table.uploads)
                          && table.uploads
                             == old(table.uploads)[r.key := Store.Upload(
                                  who.value.subject, who.value.issuer, req.size, req.contentType, req.filename,
                                  old(now) / 1_000_000_000)]))
    {
      hide Next, Run, Auth.Authenticate, RateLimits.AllowAnswer, RateLimits.AllowTable, PresignAnswer;
      var who := Admit(Admissions.Presigning, ip, bearer, w);
      if who.Err? {
        return who.error;
      }
      r := PresignFor(rid, who.value, placeName, req, stamp, random);
    }

    method HandleUpload(ghost rid: nat, ip: string, bearer: Option<string>, w: Auth.World, placeName: string,
                        req: Request, stamp: Stamp, random: Option<Bytes>, body: Reader)
      returns (r: Response)
      requires limiter.Valid() && rid !in flights
      modifies this, table, limiter, limiter.buckets.Values
      ensures limiter.Valid()
      ensures var who := Auth.Authenticate(authenticator, bearer, w);
              var (stage, buckets) :=
                Admissions.Enter(limits, old(limiter.View()), Admissions.Uploading, ip, who, old(now));
              && limiter.View() == buckets
              && (stage == Admissions.AddressStopped || stage == Admissions.CallerStopped ==> r == Throttled)
              && (stage == Admissions.NotAuthenticated ==> r == Unauthenticated)
              && (stage != Admissions.Through ==> View() == old(View()))
              && (stage == Admissions.Through ==>
                    && who.Ok?
                    && View()
                       == Run(config, old(View()), UploadSteps(rid, who.value, placeName, req, stamp, random, body))
                    && r == UploadAnswer(config, old(table.uploads), who.value, placeName, req, stamp, random, body)
                    && (r.Stored? ==>
                          && r.key !in old(table.uploads)
                          && table.uploads
                             == old(table.uploads)[r.key := Store.Upload(
                                  who.value.subject, who.value.issuer, r.size, req.contentType, req.filename,
                                  old(now) / 1_000_000_000)]
                          && objects == old(objects)[r.key := Outcome(req.size, body).value]
                          && r.size == |Outcome(req.size, body).value|))
      ensures r.Stored? <==> table.uploads != old(table.uploads)
    {
      hide Next, Run, Auth.Authenticate, RateLimits.AllowAnswer, RateLimits.AllowTable, UploadAnswer, Outcome;
      var who := Admit(Admissions.Uploading, ip, bearer, w);
      if who.Err? {
        return who.error;
      }
      r := UploadFor(rid, who.value, placeName, req, stamp, random, body);
    }

    // UploadHandler: the checks, then the copy and the rename. Computing the MAC
    // and comparing is, ideally, asking whether this string was ever signed.
    method HandlePut(ghost rid: nat, key: string, q: C.Query, contentType: string, contentLength: int, body: Reader)
      returns (r: Result<int, Response>)
      requires rid !in flights
      modifies this
      ensures View()
              == Run(config, old(View()), [PutBegin(rid, key, q, contentType, contentLength), PutCommit(rid, body)])
      ensures var c := C.AdmitPut(key, q, now, contentType, contentLength);
              r == if q.sig.MacOf? && q.sig.message !in signed then Err(PutRefused(C.Forbidden))
                   else if c.Err? then Err(PutRefused(c.error))
                   else if FileOf(key).None? then Err(BadRequest)
                   else if Outcome(c.value.maxSize, body) == Err(ObjectTooLarge) then Err(ObjectTooBig)
                   else if Outcome(c.value.maxSize, body).Err? then Err(Internal)
                   else Ok(|Outcome(c.value.maxSize, body).value|)
      ensures r.Ok? ==>
                && FileOf(key).Some?
                && var c := C.AdmitPut(key, q, now, contentType, contentLength);
                   c.Ok? && Outcome(c.value.maxSize, body).Ok?
                   && objects == old(objects)[FileOf(key).value := Outcome(c.value.maxSize, body).value]
      ensures r.Err? ==> objects == old(objects)
    {
      hide Next, Run, Outcome, FileOf, C.Canonical;
      PutRun(config, View(), rid, key, q, contentType, contentLength, body);
      var c := C.AdmitPut(key, q, now, contentType, contentLength);
      if c.Ok? {
        C.VerifiedCarriesTag(key, q, now);
      }
      if q.sig.MacOf? && q.sig.message !in signed {
        return Err(PutRefused(C.Forbidden));
      }
      if c.Err? {
        return Err(PutRefused(c.error));
      }
      var file := FileOf(key);
      if file.None? {
        return Err(BadRequest);
      }
      var written := Outcome(c.value.maxSize, body);
      if written.Err? {
        return Err(if written.error == ObjectTooLarge then ObjectTooBig else Internal);
      }
      objects := objects[file.value := written.value];
      return Ok(|written.value|);
    }

    // handleDeleteFile: the row first, then the object, best effort.
    method HandleDelete(ghost rid: nat, id: Identity, key: string, fault: bool) returns (r: Response)
      requires rid !in flights
      modifies this, table
      ensures View()
              == Run(config, old(View()), [DeleteRow(rid, id, key), RemoveObject(rid, fault), RemoveObject(rid, false)])
      ensures r == Removed
         <==> && !id.anonymous && key != "" && key in old(table.uploads)
              && (id.admin || (old(table.uploads)[key].account == id.subject
                               && old(table.uploads)[key].issuer == id.issuer))
      ensures r == Removed ==> table.uploads == old(table.uploads) - {key}
      ensures r == Removed && ValidKey(key) && !fault ==> key !in objects
      ensures r != Removed ==> View() == old(View())
      ensures r == Forbidden <==> id.anonymous
      ensures r == BadRequest <==> !id.anonymous && key == ""
      ensures r == Removed || r == NotFound || r == Forbidden || r == BadRequest
    {
      hide Next, Run;
      DeleteRun(config, View(), rid, id, key, fault);
      if id.anonymous {
        return Forbidden;
      }
      if key == "" {
        return BadRequest;
      }
      var found;
      if id.admin {
        found := table.DeleteUploadAny(key);
      } else {
        found := table.DeleteUpload(key, id.subject, id.issuer);
      }
      if !found {
        assert table.uploads == old(table.uploads);
        return NotFound;
      }
      var valid := ValidateKey(key);
      if valid && !fault {
        objects := objects - {key};
      }
      return Removed;
    }

    // wipeUploads, for a caller's own uploads or an admin's target: the rows in
    // one transaction, then each object, best effort.
    method WipeUploads(ghost rid: nat, account: string, issuer: string, faults: set<string>)
      returns (r: Response, ghost order: seq<string>)
      requires rid !in flights && account != ""
      modifies this, table
      ensures var gone := set k | k in old(table.uploads) && old(table.uploads)[k].account == account
                                  && (issuer == "" || old(table.uploads)[k].issuer == issuer);
              && r == Cleared(|gone|) && Enumerates(order, gone)
              && table.uploads == old(table.uploads) - gone
              && objects == old(objects) - set k | k in gone && ValidKey(k) && k !in faults
      ensures View() == Run(config, DoWipe(old(View()), rid, account, issuer, order), Removals(rid, order, faults))
    {
      hide Next, Run, ValidKey, DoWipe, Removals, Store.InWipe;
      var keys := table.WipeUploads(account, issuer);
      order := keys.value;
      WipeRun(config, old(View()), rid, account, issuer, order, faults);
      var i := 0;
      while i < |keys.value|
        invariant 0 <= i <= |keys.value|
        invariant table.uploads == old(table.uploads) - Store.Wiped(old(table.uploads), account, issuer)
        invariant signed == old(signed) && now == old(now) && flights == old(flights)
        invariant issues == old(issues) && segments == old(segments)
        invariant objects == old(objects) - Deletable(keys.value[..i], faults)
      {
        assert keys.value[..i + 1] == keys.value[..i] + [keys.value[i]];
        var valid := ValidateKey(keys.value[i]);
        if valid && keys.value[i] !in faults {
          objects := objects - {keys.value[i]};
        }
        i := i + 1;
      }
      assert keys.value[..i] == keys.value;
      WipedAre(old(table.uploads), account, issuer, order, faults);
      return Cleared(|keys.value|), order;
    }

    // handleWipeFiles: a caller's own uploads.
    method HandleWipeOwn(ghost rid: nat, id: Identity, faults: set<string>)
      returns (r: Response, ghost order: seq<string>)
      requires rid !in flights && Auth.WellFormed(id)
      modifies this, table
      ensures View() == if id.anonymous then old(View())
                        else Run(config, Next(config, old(View()), WipeOwn(rid, id, order)),
                                 Removals(rid, order, faults))
      ensures r == Forbidden <==> id.anonymous
      ensures !id.anonymous ==>
                var gone := set k | k in old(table.uploads) && old(table.uploads)[k].account == id.subject
                                    && old(table.uploads)[k].issuer == id.issuer;
                && r == Cleared(|gone|) && table.uploads == old(table.uploads) - gone
                && objects == old(objects) - set k | k in gone && ValidKey(k) && k !in faults
      ensures !id.anonymous ==> Store.Usage(table.uploads, OwnerId(id)) == 0
    {
      if id.anonymous {
        return Forbidden, [];
      }
      hide Run, DoWipe, ValidKey, Store.Usage, Enumerates, Auth.WellFormed, Removals;
      ghost var rows := table.uploads;
      OwnWipe(rows, id);
      Store.WipeConserves(rows, id.subject, id.issuer, Store.Size());
      r, order := WipeUploads(rid, id.subject, id.issuer, faults);
    }

    // handleAdminWipeFiles: any one user's uploads, for an admin.
    method HandleWipeAny(ghost rid: nat, id: Identity, account: string, issuer: string, faults: set<string>)
      returns (r: Response, ghost order: seq<string>)
      requires rid !in flights
      modifies this, table
      ensures View() == if !IsAdmin(id) || account == "" then old(View())
                        else Run(config, Next(config, old(View()), WipeAny(rid, id, account, issuer, order)),
                                 Removals(rid, order, faults))
      ensures r == Forbidden
         <==> !(id.admin && (id.credential == Auth.MethodOIDC || id.credential == Auth.MethodServiceKey))
      ensures r == BadRequest <==> r != Forbidden && account == ""
      ensures r != Forbidden && r != BadRequest ==>
                var gone := set k | k in old(table.uploads) && old(table.uploads)[k].account == account
                                    && (issuer == "" || old(table.uploads)[k].issuer == issuer);
                && r == Cleared(|gone|) && table.uploads == old(table.uploads) - gone
                && objects == old(objects) - set k | k in gone && ValidKey(k) && k !in faults
    {
      if !IsAdmin(id) {
        return Forbidden, [];
      }
      if account == "" {
        return BadRequest, [];
      }
      hide Run, DoWipe;
      r, order := WipeUploads(rid, account, issuer, faults);
    }
  }

  // The rows and objects of a wipe, spelled out.
  lemma WipedAre(rows: Store.Rows, account: string, issuer: string, order: seq<string>, faults: set<string>)
    requires Enumerates(order, Store.Wiped(rows, account, issuer))
    ensures var gone := set k | k in rows && rows[k].account == account && (issuer == "" || rows[k].issuer == issuer);
            && gone == Store.Wiped(rows, account, issuer) && |gone| == |order|
            && Deletable(order, faults) == set k | k in gone && ValidKey(k) && k !in faults
  {
    hide ValidKey;
    var gone := set k | k in rows && rows[k].account == account && (issuer == "" || rows[k].issuer == issuer);
    assert gone == Store.Wiped(rows, account, issuer);
    EnumerationLength(order, gone);
  }

  lemma OwnWipe(rows: Store.Rows, id: Identity)
    requires Auth.WellFormed(id) && !id.anonymous
    ensures id.subject != "" && id.issuer != ""
    ensures (set k | k in rows && rows[k].account == id.subject && (id.issuer == "" || rows[k].issuer == id.issuer))
            == (set k | k in rows && rows[k].account == id.subject && rows[k].issuer == id.issuer)
            == Store.Wiped(rows, id.subject, id.issuer)
  {
  }

  // Listing each key once counts them.
  lemma {:induction false} EnumerationLength(order: seq<string>, keys: set<string>)
    requires Enumerates(order, keys)
    ensures |order| == |keys|
    decreases |order|
  {
    if order != [] {
      var rest, last := order[..|order| - 1], order[|order| - 1];
      assert forall k :: k in keys ==> k in order;
      assert forall i :: 0 <= i < |rest| ==> rest[i] == order[i];
      forall k | k in keys - {last} ensures k in rest {
        assert k in order;
      }
      EnumerationLength(rest, keys - {last});
    }
  }

  // The keys whose objects the driver can and does delete.
  function Deletable(keys: seq<string>, faults: set<string>): set<string>
  {
    set k | k in keys && ValidKey(k) && k !in faults
  }

  // The machine after n objects of a wipe have been dealt with.
  function Progress(s: State, rid: nat, account: string, issuer: string, order: seq<string>, faults: set<string>,
      n: nat): State
    requires n <= |order|
  {
    s.(objects := s.objects - Deletable(order[..n], faults),
       flights := s.flights[rid := Removing(account, issuer, order[n..])])
  }

  lemma ProgressStep(s: State, rid: nat, account: string, issuer: string, order: seq<string>, faults: set<string>,
      n: nat)
    requires n < |order|
    ensures DoRemoveObject(Progress(s, rid, account, issuer, order, faults, n), RemoveObject(rid, order[n] in faults))
            == Progress(s, rid, account, issuer, order, faults, n + 1)
  {
    hide ValidKey;
    var key, p := order[n], Progress(s, rid, account, issuer, order, faults, n);
    assert order[n..][0] == key && order[n..][1..] == order[n + 1..];
    assert order[..n + 1] == order[..n] + [key];
    var gone := Deletable(order[..n], faults);
    assert Deletable(order[..n + 1], faults) == if ValidKey(key) && key !in faults then gone + {key} else gone;
    assert s.objects - gone - {key} == s.objects - (gone + {key});
  }

  lemma ProgressZero(s: State, rid: nat, account: string, issuer: string, order: seq<string>, faults: set<string>)
    requires rid in s.flights && s.flights[rid] == Removing(account, issuer, order)
    ensures Progress(s, rid, account, issuer, order, faults, 0) == s
  {
    hide ValidKey;
    assert order[0..] == order && order[..0] == [];
    assert s.flights[rid := Removing(account, issuer, order)] == s.flights;
    assert Deletable([], faults) == {} && s.objects - {} == s.objects;
  }

  lemma {:induction false} RemovalsRun(c: Config, s: State, rid: nat, account: string, issuer: string,
      order: seq<string>, faults: set<string>, n: nat)
    requires rid in s.flights && s.flights[rid] == Removing(account, issuer, order) && n <= |order|
    ensures Run(c, s, RemovalsUpTo(rid, order, faults, n)) == Progress(s, rid, account, issuer, order, faults, n)
  {
    hide Next, ValidKey, Progress, DoRemoveObject;
    if n == 0 {
      ProgressZero(s, rid, account, issuer, order, faults);
    } else {
      RemovalsRun(c, s, rid, account, issuer, order, faults, n - 1);
      RunSnoc(c, s, RemovalsUpTo(rid, order, faults, n - 1), RemoveObject(rid, order[n - 1] in faults));
      Dispatch(c, Progress(s, rid, account, issuer, order, faults, n - 1), RemoveObject(rid, order[n - 1] in faults));
      ProgressStep(s, rid, account, issuer, order, faults, n - 1);
    }
  }

  lemma WipeRun(c: Config, s: State, rid: nat, account: string, issuer: string, order: seq<string>,
      faults: set<string>)
    requires rid !in s.flights && account != "" && Enumerates(order, Store.Wiped(s.rows, account, issuer))
    ensures Run(c, DoWipe(s, rid, account, issuer, order), Removals(rid, order, faults))
            == s.(rows := s.rows - Store.Wiped(s.rows, account, issuer),
                  objects := s.objects - Deletable(order, faults))
  {
    hide Next, ValidKey, Enumerates;
    var s1 := DoWipe(s, rid, account, issuer, order);
    RemovalsRun(c, s1, rid, account, issuer, order, faults, |order|);
    RunSnoc(c, s1, RemovalsUpTo(rid, order, faults, |order|), RemoveObject(rid, false));
    Dispatch(c, Progress(s1, rid, account, issuer, order, faults, |order|), RemoveObject(rid, false));
    assert order[..|order|] == order && order[|order|..] == [];
    assert s1.flights[rid := Removing(account, issuer, [])] - {rid} == s.flights;
  }

  // From any reachable state, when no delete fails, no wiped key keeps its
  // object.
  lemma {:induction false} WipeLeavesNoObject(c: Config, ids: set<Owner>, steps: seq<Step>,
                                                   account: string, issuer: string, order: seq<string>)
    requires forall i :: 0 <= i < |steps| ==> Isolation.Proper(ids, steps[i])
    requires Enumerates(order, Store.Wiped(Run(c, EMPTY, steps).rows, account, issuer))
    ensures var s := Run(c, EMPTY, steps);
            (s.objects - Deletable(order, {})).Keys !! Store.Wiped(s.rows, account, issuer)
  {
    Isolation.RunKeepsInv(c, ids, EMPTY, steps);
    var s := Run(c, EMPTY, steps);
    hide Run, ValidKey, OwnerOf;
    forall k | k in Store.Wiped(s.rows, account, issuer) ensures k in Deletable(order, {}) {
      assert k in order && Isolation.RowOk(c, ids, k, s.rows[k]);
    }
  }

  function RemovalsUpTo(rid: nat, order: seq<string>, faults: set<string>, n: nat): seq<Step>
    requires n <= |order|
  {
    if n == 0 then [] else RemovalsUpTo(rid, order, faults, n - 1) + [RemoveObject(rid, order[n - 1] in faults)]
  }

  // One object after the other, then the request ends.
  function Removals(rid: nat, order: seq<string>, faults: set<string>): seq<Step>
  {
    RemovalsUpTo(rid, order, faults, |order|) + [RemoveObject(rid, false)]
  }
}
