/** Whether what is charged covers what is stored, exactly: the condition on a
    registry's places, the runs from the empty gateway that break it, and the two
    ordinary ways in which account keys do. */
module Overruns {
  import opened Wrappers
  import opened Decimal
  import opened Sums
  import opened Timestamps
  import opened Places
  import opened ObjectKeys
  import opened Transfers
  import opened Gateway
  import opened Grants
  import opened Reach
  import opened Scripts
  import opened Exactness
  import opened Charges
  import Text
  import Paths
  import C = Capabilities
  import Isolation
  import Quotas
  import Store
  import Auth

  // ------------------------------------------------------ runs that do not fit

  // A grant that was presigned, recorded, and can be used: what stands when its
  // handler has answered.
  lemma Presigned(c: Config, s: State, id: Identity, g: C.Grant, w: Source)
    requires IssuedBy(c.registry, c.digest, id, g, w) && s.flights == map[] && HasRoom(c, s, id, g.maxSize)
    ensures var t := Run(c, s, PresignOf(0, id, g, w));
            && t.flights == map[] && t.now == s.now && t.objects == s.objects
            && s.signed <= t.signed && C.Canonical(CapFor(g, s.now + PRESIGN_TTL)) in t.signed
            && t.issues == s.issues + {Issue(CapFor(g, s.now + PRESIGN_TTL), id)}
            && t.rows == Inserted(s.rows, g.key, Row(id, g.maxSize, RequestOf(g, w), C.Unix(s.now)))
            && t.segments == WithDraw(s.segments, g.key, g.maxSize)
  {
    PresignGrants(c, s, 0, id, g, w);
    hide Run, C.Canonical, PresignOf, IsDumpKey, UniqueOf, Inserted;
  }

  // A run so far, with nothing in flight at time 0.
  ghost predicate Reached(c: Config, ids: set<Owner>, steps: seq<Step>, s: State)
  {
    && ProperRun(ids, steps) && Along(c, EMPTY, steps, Plausible(c))
    && s == Run(c, EMPTY, steps) && s.flights == map[] && s.now == 0
  }

  lemma ReachedMore(c: Config, ids: set<Owner>, steps: seq<Step>, s: State, more: seq<Step>, t: State)
    requires Reached(c, ids, steps, s) && ProperRun(ids, more) && Along(c, s, more, Plausible(c))
    requires t == Run(c, s, more) && t.flights == map[] && t.now == 0
    ensures Reached(c, ids, steps + more, t)
  {
    hide Run, Along, ProperRun, Plausible;
    ProperConcat(ids, steps, more);
    AlongConcat(c, EMPTY, steps, more, Plausible(c));
    RunConcat(c, EMPTY, steps, more);
  }

  lemma ReachedNothing(c: Config, ids: set<Owner>)
    ensures Reached(c, ids, [], EMPTY)
  {
    RunSnoc(c, EMPTY, [], Advance(0));
  }

  lemma PresignReached(c: Config, ids: set<Owner>, steps: seq<Step>, s: State, id: Identity, g: C.Grant, w: Source)
    returns (t: State)
    requires IssuedBy(c.registry, c.digest, id, g, w) && OwnerId(id) in ids && HasRoom(c, s, id, g.maxSize)
    requires Reached(c, ids, steps, s) && Undrawn(s, g.key)
    ensures t == Run(c, s, PresignOf(0, id, g, w))
    ensures Reached(c, ids, steps + PresignOf(0, id, g, w), t)
  {
    hide Run, Along, ProperRun, IssuedBy, PresignOf, Undrawn, Inserted, WithDraw, C.Canonical, HasRoom;
    t := Run(c, s, PresignOf(0, id, g, w));
    Presigned(c, s, id, g, w);
    PresignProper(c.registry, c.digest, ids, 0, id, g, w);
    PresignPlausible(c, s, 0, id, g, w);
    ReachedMore(c, ids, steps, s, PresignOf(0, id, g, w), t);
  }

  lemma PutReached(c: Config, ids: set<Owner>, steps: seq<Step>, s: State, g: C.Grant, h: C.Grant, body: Bytes)
    returns (t: State)
    requires Reached(c, ids, steps, s) && C.Canonical(CapFor(g, PRESIGN_TTL)) in s.signed && C.Reads(h, g)
    requires FileOf(h.key).Some? && h.maxSize != MAX_INT64 && (h.maxSize <= 0 || |body| <= h.maxSize)
    ensures Reached(c, ids, steps + PutOf(0, h, PRESIGN_TTL, body), t)
    ensures t == Run(c, s, PutOf(0, h, PRESIGN_TTL, body)) == s.(objects := s.objects[FileOf(h.key).value := body])
  {
    ReadingPresentable(s, g, h, PRESIGN_TTL);
    hide Run, Along, ProperRun, PutOf, C.Canonical, C.SignedText, FileOf, Presentable;
    PutLands(c, s, 0, h, PRESIGN_TTL, body);
    PutProper(ids, 0, h, PRESIGN_TTL, body);
    PutPlausible(c, s, 0, h, PRESIGN_TTL, body);
    t := Run(c, s, PutOf(0, h, PRESIGN_TTL, body));
    ReachedMore(c, ids, steps, s, PutOf(0, h, PRESIGN_TTL, body), t);
  }

  // Two presigned grants, one after the other; when they share an account key,
  // the first row is deleted in between.
  lemma BothGranted(r: Registry, digest: Digest, ids: set<Owner>, id1: Identity, g1: C.Grant, w1: Source,
                    id2: Identity, g2: C.Grant, w2: Source)
    returns (steps: seq<Step>, s: State)
    requires IssuedBy(r, digest, id1, g1, w1) && IssuedBy(r, digest, id2, g2, w2) && Together(g1, g2)
    requires OwnerId(id1) in ids && OwnerId(id2) in ids
    ensures Reached(Unlimited(r, digest), ids, steps, s)
    ensures C.Canonical(CapFor(g1, PRESIGN_TTL)) in s.signed
    ensures g2.key in s.rows && s.rows[g2.key].size == g2.maxSize
  {
    var c := Unlimited(r, digest);
    hide Run, IssuedBy, PresignOf, C.Canonical, Reached, IsDumpKey, UniqueOf, DeleteOf;
    ReachedNothing(c, ids);
    if g1.key == g2.key && !IsDumpKey(g1.key) {
      steps, s := Regranted(c, ids, id1, g1, w1, id2, g2, w2);
    } else {
      var s1 := PresignReached(c, ids, [], EMPTY, id1, g1, w1);
      Presigned(c, EMPTY, id1, g1, w1);
      steps, s := [] + PresignOf(0, id1, g1, w1), s1;
      if g1.key != g2.key {
        s := PresignReached(c, ids, steps, s1, id2, g2, w2);
        Presigned(c, s1, id2, g2, w2);
        steps := steps + PresignOf(0, id2, g2, w2);
      }
    }
  }

  // An account key that is presigned, deleted, and presigned again. The second
  // check reads the usage of an empty table, as the first did.
  lemma Regranted(c: Config, ids: set<Owner>, id1: Identity, g1: C.Grant, w1: Source,
                  id2: Identity, g2: C.Grant, w2: Source)
    returns (steps: seq<Step>, s: State)
    requires IssuedBy(c.registry, c.digest, id1, g1, w1) && IssuedBy(c.registry, c.digest, id2, g2, w2)
    requires g1.key == g2.key && !IsDumpKey(g1.key)
    requires HasRoom(c, EMPTY, id1, g1.maxSize) && HasRoom(c, EMPTY, id2, g2.maxSize)
    requires OwnerId(id1) in ids && OwnerId(id2) in ids
    ensures Reached(c, ids, steps, s) && s.objects == map[]
    ensures C.Canonical(CapFor(g1, PRESIGN_TTL)) in s.signed
    ensures g2.key in s.rows && s.rows[g2.key].size == g2.maxSize
  {
    hide Run, IssuedBy, PresignOf, C.Canonical, Reached, IsDumpKey, UniqueOf, DeleteOf, HasRoom;
    ReachedNothing(c, ids);
    var s1 := PresignReached(c, ids, [], EMPTY, id1, g1, w1);
    Presigned(c, EMPTY, id1, g1, w1);
    steps := [] + PresignOf(0, id1, g1, w1);
    var s2 := DeletedReached(c, ids, steps, s1, id1, g1, w1);
    steps := steps + DeleteOf(0, id1, g1.key);
    assert s2.rows == EMPTY.rows;
    SameRoom(c, EMPTY, s2, id2, g2.maxSize);
    s := PresignReached(c, ids, steps, s2, id2, g2, w2);
    Presigned(c, s2, id2, g2, w2);
    steps := steps + PresignOf(0, id2, g2, w2);
  }

  lemma SameRoom(c: Config, s: State, t: State, id: Identity, size: int)
    requires HasRoom(c, s, id, size) && t.rows == s.rows
    ensures HasRoom(c, t, id, size)
  {
  }

  lemma DeletedReached(c: Config, ids: set<Owner>, steps: seq<Step>, s: State, id: Identity, g: C.Grant, w: Source)
    returns (t: State)
    requires IssuedBy(c.registry, c.digest, id, g, w) && !IsDumpKey(g.key) && OwnerId(id) in ids
    requires Reached(c, ids, steps, s)
    requires g.key in s.rows && Store.OwnerOfRow(s.rows[g.key]) == OwnerId(id)
    ensures Reached(c, ids, steps + DeleteOf(0, id, g.key), t)
    ensures t.rows == s.rows - {g.key} && t.objects == s.objects - {g.key}
    ensures t.signed == s.signed && t.segments == s.segments && t.flights == s.flights && t.now == s.now
  {
    IssuedShape(c.registry, c.digest, id, g, w);
    KeyNotEmpty(g.key);
    DeleteRun(c, s, 0, id, g.key, false);
    DeletePlausible(c, s, 0, id, g.key);
    DeleteProper(ids, id, g.key);
    hide Run, Along, ProperRun, DeleteOf, IsDumpKey, ValidKey, OwnerOf, DeriveKey, Validate;
    t := Run(c, s, DeleteOf(0, id, g.key));
    ReachedMore(c, ids, steps, s, DeleteOf(0, id, g.key), t);
  }

  lemma KeyNotEmpty(key: string)
    requires ValidKey(key)
    ensures key != ""
  {
    assert key == "" ==> "" in Text.Split(key, '/');
  }

  lemma DeleteProper(ids: set<Owner>, id: Identity, key: string)
    requires Auth.WellFormed(id) && OwnerId(id) in ids
    ensures ProperRun(ids, DeleteOf(0, id, key))
  {
  }

  function Zeros(n: nat): Bytes { seq(n, _ => 0) }

  // The PUT that leaves more than the row says.
  lemma OversizedPut(c: Config, ids: set<Owner>, steps: seq<Step>, s: State, g1: C.Grant, h: C.Grant,
                     g2: C.Grant, all: bool)
    returns (more: seq<Step>)
    requires Reached(c, ids, steps, s) && g2.maxSize > 0
    requires C.Canonical(CapFor(g1, PRESIGN_TTL)) in s.signed && C.Reads(h, g1)
    requires FileOf(h.key) == Some(g2.key) && MayExceed(h.maxSize, g2.maxSize) && (all || IsDumpKey(g2.key))
    requires g2.key in s.rows && s.rows[g2.key].size == g2.maxSize
    ensures !RunFits(c, ids, more, all)
  {
    hide Run, Along, ProperRun, PutOf, C.Canonical, C.Reads, FileOf, IsDumpKey;
    var t := PutReached(c, ids, steps, s, g1, h, Zeros(g2.maxSize + 1));
    assert !Covered(t, all) by { assert g2.key in t.rows && g2.key in t.objects; }
    more := steps + PutOf(0, h, PRESIGN_TTL, Zeros(g2.maxSize + 1));
  }

  lemma OversizeBreaks(r: Registry, digest: Digest, all: bool, id1: Identity, g1: C.Grant, h: C.Grant,
                       id2: Identity, g2: C.Grant)
    requires Oversizes(r, digest, all, id1, g1, h, id2, g2)
    ensures !EveryRunFits(r, digest, all)
  {
    hide IssuedBy, C.Reads, FileOf, Together, Reached, IsDumpKey, C.Canonical, RunFits;
    var w1: Source :| IssuedBy(r, digest, id1, g1, w1);
    var w2: Source :| IssuedBy(r, digest, id2, g2, w2);
    var ids := {OwnerId(id1), OwnerId(id2)};
    IssuableOwner(r, digest, id2, g2);
    var steps, s := BothGranted(r, digest, ids, id1, g1, w1, id2, g2, w2);
    var more := OversizedPut(Unlimited(r, digest), ids, steps, s, g1, h, g2, all);
    assert !RunFits(Config(r, Quotas.Policy(0, map[]), digest), ids, more, all);
  }

  // In every run, under every quota, each object that has a row fits it, if and
  // only if no reading of what the registry signs can oversize a key that the
  // registry can charge for.
  lemma FitsExactly(r: Registry, digest: Digest, all: bool)
    ensures EveryRunFits(r, digest, all) <==> Tight(r, digest, all)
  {
    hide Oversizes, RunFits;
    if Tight(r, digest, all) {
      hide Tight;
      forall quota, ids, steps ensures RunFits(Config(r, quota, digest), ids, steps, all) {
        TightFits(Config(r, quota, digest), ids, steps, all);
      }
    } else {
      var id1, g1, h, id2, g2 :| Oversizes(r, digest, all, id1, g1, h, id2, g2);
      OversizeBreaks(r, digest, all, id1, g1, h, id2, g2);
    }
  }

  // So on a clear registry dump objects always fit, and all objects do exactly
  // when no account place whose keys are accepted admits two sizes.
  lemma ClearFitsExactly(r: Registry, digest: Digest)
    requires Clear(r)
    ensures EveryRunFits(r, digest, false)
    ensures EveryRunFits(r, digest, true) <==> SingleSizes(r)
  {
    hide Clear, EveryRunFits, SingleSizes, Tight;
    ClearTightExactly(r, digest);
    FitsExactly(r, digest, false);
    FitsExactly(r, digest, true);
  }

  // A place that takes every content type breaks it for the keys of any place.
  lemma CatchAllBreaksFit(r: Registry, digest: Digest, all: bool, name: string, other: string)
    requires Granting(r, name) && r.places[name].allowedMime == []
    requires Granting(r, other) && (all || r.places[other].strategy == STRATEGY_DUMP)
    ensures !EveryRunFits(r, digest, all)
  {
    hide EveryRunFits, Tight, CanGrant;
    CatchAllOversizes(r, digest, all, name, other);
    FitsExactly(r, digest, all);
  }

  // The three promises together, over all runs, under every quota and whatever
  // content types are asked for: every accepted PUT was signed for exactly its
  // key, size and type, owners are isolated, and dump objects fit their rows, if
  // and only if the registry is clear.
  lemma {:induction false} PromisesExactly(r: Registry, digest: Digest)
    ensures EveryPutSigned(r, digest) && EveryRunIsolated(r, digest) && EveryRunFits(r, digest, false) <==> Clear(r)
  {
    hide Clear, EveryPutSigned, EveryRunIsolated, EveryRunFits, SingleSizes;
    SignedPutsExactly(r, digest);
    TypesDecide(r, digest);
    if Clear(r) { ClearFitsExactly(r, digest); }
  }

  // Some account may store two bytes.
  predicate Roomy(quota: Quotas.Policy)
  {
    quota.limit <= 0 || quota.limit >= 2 || exists a :: a in quota.overrides && a != "" && quota.overrides[a] != 1
  }

  // That condition on the account places is the same under each quota by which
  // some account may store two bytes.
  lemma FitsUnderQuotaExactly(r: Registry, digest: Digest, quota: Quotas.Policy)
    requires Clear(r) && Roomy(quota)
    ensures (forall ids: set<Owner>, steps: seq<Step> :: RunFits(Config(r, quota, digest), ids, steps, true))
            <==> SingleSizes(r)
  {
    hide Clear, Tight, RunFits, Granting, Roomy;
    if SingleSizes(r) {
      ClearTightExactly(r, digest);
      forall ids, steps ensures RunFits(Config(r, quota, digest), ids, steps, true) {
        TightFits(Config(r, quota, digest), ids, steps, true);
      }
    } else {
      var n :| n in r.places && Granting(r, n) && r.places[n].strategy == STRATEGY_ACCOUNT && r.places[n].maxSize != 1;
      var ids, steps := TwoSizesUnderQuota(r, digest, quota, n);
    }
  }

  lemma RoomyAccount(quota: Quotas.Policy) returns (a: string)
    requires Roomy(quota)
    ensures a != "" && (Quotas.Limit(quota, a) <= 0 || Quotas.Limit(quota, a) >= 2)
  {
    if x :| x in quota.overrides && x != "" && quota.overrides[x] != 1 {
      a := x;
    } else {
      a := FreshName(quota.overrides.Keys);
    }
  }

  lemma {:induction false} FreshName(names: set<string>) returns (a: string)
    ensures a != "" && a !in names
  {
    a := Longer(names);
  }

  lemma {:induction false} Longer(names: set<string>) returns (a: string)
    ensures a != "" && forall n :: n in names ==> |n| < |a|
    decreases |names|
  {
    if names == {} {
      a := "x";
    } else {
      var n :| n in names;
      var b := Longer(names - {n});
      a := b + n;
      assert forall m :: m in names ==> m == n || m in names - {n};
    }
  }

  lemma EmptyUsage(o: Owner)
    ensures Store.UsageReading(EMPTY.rows, o) == Some(0)
  {
    SumEmpty<string, Store.Upload>(Store.Only(Store.Size(), o));
  }

  lemma TwoSizesUnderQuota(r: Registry, digest: Digest, quota: Quotas.Policy, name: string)
    returns (ids: set<Owner>, steps: seq<Step>)
    requires Granting(r, name) && r.places[name].strategy == STRATEGY_ACCOUNT && r.places[name].maxSize != 1
    requires Roomy(quota)
    ensures !RunFits(Config(r, quota, digest), ids, steps, true)
  {
    hide CanGrant, ValidKey, IsDumpKey, FileOf, Reached, C.Canonical, RunFits, Roomy, IssuedBy;
    var c, w, p := Config(r, quota, digest), Plainly(name), r.places[name];
    var a := RoomyAccount(quota);
    var id := Auth.Identity(a, "i", Auth.MethodOIDC, false, false);
    var t := if p.allowedMime == [] then "" else p.allowedMime[0];
    var g1 := PlaceGrants(r, digest, id, 2, t, w);
    var g2 := PlaceGrants(r, digest, id, 1, t, w);
    SameSourceSameKey(r, digest, id, g1, g2, w);
    EmptyUsage(OwnerId(id));
    hide Store.UsageReading;
    ids := {OwnerId(id)};
    var s;
    steps, s := Regranted(c, ids, id, g1, w, id, g2, w);
    GrantValid(r, digest, id, g1, w);
    ValidKeyFile(g1.key);
    steps := OversizedPut(c, ids, steps, s, g1, g1, g2, true);
  }

  lemma GrantValid(r: Registry, digest: Digest, id: Identity, g: C.Grant, w: Source)
    requires IssuedBy(r, digest, id, g, w)
    ensures ValidKey(g.key) && C.Reads(g, g)
  {
    hide ValidKey, DeriveKey, Validate;
  }

  // ------------------------------------------------- the ways it is not kept

  // A one-shot upload over an account key that has a row: the object is
  // replaced, the INSERT fails, the row keeps the size of the first.
  lemma ReuploadRun(r: Registry, digest: Digest, id: Identity, g1: C.Grant, w1: Source, b1: Bytes,
                    g2: C.Grant, w2: Source, b2: Bytes)
    returns (steps: seq<Step>, s: State)
    requires IssuedBy(r, digest, id, g1, w1) && IssuedBy(r, digest, id, g2, w2)
    requires g1.key == g2.key && !IsDumpKey(g1.key)
    requires |b1| == g1.maxSize < MAX_INT64 && |b2| == g2.maxSize < MAX_INT64
    ensures Reached(Unlimited(r, digest), {OwnerId(id)}, steps, s)
    ensures s.rows.Keys == {g1.key} && s.rows[g1.key].size == |b1| && s.objects == map[g1.key := b2]
  {
    var c, ids := Unlimited(r, digest), {OwnerId(id)};
    hide IssuedBy, Reached, IsDumpKey, UniqueOf, UploadOf;
    ReachedNothing(c, ids);
    var s1 := UploadReached(c, ids, [], EMPTY, id, g1, w1, b1);
    steps := [] + UploadOf(0, id, g1, w1, b1);
    s := UploadReached(c, ids, steps, s1, id, g2, w2, b2);
    steps := steps + UploadOf(0, id, g2, w2, b2);
  }

  lemma UploadReached(c: Config, ids: set<Owner>, steps: seq<Step>, s: State, id: Identity, g: C.Grant, w: Source,
                      body: Bytes)
    returns (t: State)
    requires IssuedBy(c.registry, c.digest, id, g, w) && OwnerId(id) in ids && HasRoom(c, s, id, g.maxSize)
    requires Reached(c, ids, steps, s) && Undrawn(s, g.key) && |body| == g.maxSize < MAX_INT64
    ensures Reached(c, ids, steps + UploadOf(0, id, g, w, body), t)
    ensures t.objects == s.objects[g.key := body] && t.segments == WithDraw(s.segments, g.key, g.maxSize)
    ensures t.rows == Inserted(s.rows, g.key, Row(id, |body|, RequestOf(g, w), C.Unix(s.now)))
  {
    hide Run, Along, ProperRun, IssuedBy, UploadOf, Undrawn, Inserted, WithDraw, HasRoom;
    t := Run(c, s, UploadOf(0, id, g, w, body));
    UploadGrants(c, s, 0, id, g, w, body);
    UploadProper(c, ids, id, g, w, body);
    UploadPlausible(c, s, 0, id, g, w, body);
    ReachedMore(c, ids, steps, s, UploadOf(0, id, g, w, body), t);
  }

  lemma UploadProper(c: Config, ids: set<Owner>, id: Identity, g: C.Grant, w: Source, body: Bytes)
    requires IssuedBy(c.registry, c.digest, id, g, w) && OwnerId(id) in ids
    ensures ProperRun(ids, UploadOf(0, id, g, w, body))
  {
    hide DeriveKey, ValidKey, Validate, Resolve;
  }

  // A capability that outlives its row: an account key is presigned, deleted,
  // presigned again, and written with the first capability.
  lemma StaleCapabilityRun(r: Registry, digest: Digest, id: Identity, g1: C.Grant, w1: Source,
                           g2: C.Grant, w2: Source, body: Bytes)
    returns (steps: seq<Step>, s: State)
    requires IssuedBy(r, digest, id, g1, w1) && IssuedBy(r, digest, id, g2, w2)
    requires g1.key == g2.key && !IsDumpKey(g1.key) && |body| <= g1.maxSize < MAX_INT64
    ensures Reached(Unlimited(r, digest), {OwnerId(id)}, steps, s)
    ensures g2.key in s.rows && s.rows[g2.key].size == g2.maxSize && s.objects == map[g2.key := body]
  {
    var c, ids := Unlimited(r, digest), {OwnerId(id)};
    hide IssuedBy, Reached, IsDumpKey, C.Canonical, PutOf, Run, ValidKey, FileOf;
    var s1;
    steps, s1 := Regranted(c, ids, id, g1, w1, id, g2, w2);
    GrantValid(r, digest, id, g1, w1);
    ValidKeyFile(g1.key);
    s := PutReached(c, ids, steps, s1, g1, g1, body);
    steps := steps + PutOf(0, g1, PRESIGN_TTL, body);
  }

  // Where a place takes every content type: v's object, uploaded and recorded,
  // is replaced by another body of any size, in steps none of which is for v. So
  // neither isolation nor the fit of dump objects survives this run.
  lemma OverwriteRun(r: Registry, digest: Digest, id: Identity, w: Source, vid: Identity, g2: C.Grant, w2: Source,
                     x: Bytes, y: Bytes)
    returns (before: seq<Step>, steps: seq<Step>)
    requires Granting(r, w.placeName) && r.places[w.placeName].allowedMime == []
    requires Auth.WellFormed(id) && !id.anonymous && !id.admin
    requires w.filename != "" && ValidStamp(w.stamp) && |w.random| == 6
    requires IssuedBy(r, digest, vid, g2, w2) && !C.Ambiguous(g2) && |x| <= g2.maxSize < MAX_INT64
    requires w.stamp == w2.stamp && w.random != w2.random
    requires Namespace(digest, OwnerId(vid)) != Namespace(digest, OwnerId(id))
    ensures var c, ids, v := Unlimited(r, digest), {OwnerId(vid), OwnerId(id)}, OwnerId(vid);
            var s, t := Run(c, EMPTY, before), Run(c, EMPTY, before + steps);
            && Reached(c, ids, before, s) && Reached(c, ids, before + steps, t)
            && Isolation.NeverActsFor(c, s, steps, v)
            && g2.key in s.rows && Store.OwnerOfRow(s.rows[g2.key]) == v && s.rows[g2.key].size == g2.maxSize
            && OwnerOf(g2.key) == Namespace(digest, v)
            && g2.key in s.objects && s.objects[g2.key] == x
            && g2.key in t.rows && t.rows[g2.key] == s.rows[g2.key]
            && g2.key in t.objects && t.objects[g2.key] == y
  {
    var c, ids := Unlimited(r, digest), {OwnerId(vid), OwnerId(id)};
    hide IssuedBy, Reached, IsDumpKey, OwnerOf, Run, Namespace, C.Reads, FileOf, CanGrant, WithDraw;
    IssuedShape(r, digest, vid, g2, w2);
    GrantValid(r, digest, vid, g2, w2);
    ValidKeyFile(g2.key);
    var s;
    before, s := Stored(c, ids, vid, g2, w2, x);
    var g, h := SteeredGrant(r, digest, id, 1, 0, w, g2.key);
    IssuedShape(r, digest, id, g, w);
    TwoSources(r, digest, id, g, w, vid, g2, w2);
    var t;
    steps, t := Overwritten(c, ids, before, s, id, g, w, vid, g2, h, y);
    FromEmpty(c, ids, before, s);
    FromEmpty(c, ids, before + steps, t);
  }

  lemma Overwritten(c: Config, ids: set<Owner>, before: seq<Step>, s: State, id: Identity, g: C.Grant, w: Source,
                    vid: Identity, g2: C.Grant, h: C.Grant, y: Bytes)
    returns (steps: seq<Step>, t: State)
    requires Reached(c, ids, before, s) && s.flights == map[] && s.now == 0
    requires g2.key in s.rows && s.segments == WithDraw(map[], g2.key, g2.maxSize)
    requires s.issues == {Issue(CapFor(g2, PRESIGN_TTL), vid)}
    requires IssuedBy(c.registry, c.digest, id, g, w) && OwnerId(id) in ids && HasRoom(c, s, id, g.maxSize)
    requires Together(g, g2) && g.key != g2.key && OwnerId(id) != OwnerId(vid)
    requires IsInt64(g2.maxSize) && !C.Ambiguous(g2)
    requires C.Reads(h, g) && h.maxSize == 0 && FileOf(h.key) == Some(g2.key)
    ensures Reached(c, ids, before + steps, t)
    ensures Isolation.NeverActsFor(c, s, steps, OwnerId(vid))
    ensures t.objects == s.objects[g2.key := y] && g2.key in t.rows && t.rows[g2.key] == s.rows[g2.key]
  {
    hide IssuedBy, Reached, IsDumpKey, UniqueOf, C.Canonical, PutOf, PresignOf, Run, C.Reads, FileOf, C.Ambiguous;
    hide HasRoom, Isolation.NeverActsFor;
    SizeOfGrant(c, id, g, w);
    var s3 := PresignReached(c, ids, before, s, id, g, w);
    Presigned(c, s, id, g, w);
    t := PutReached(c, ids, before + PresignOf(0, id, g, w), s3, g, h, y);
    steps := PresignOf(0, id, g, w) + PutOf(0, h, PRESIGN_TTL, y);
    assert before + PresignOf(0, id, g, w) + PutOf(0, h, PRESIGN_TTL, y) == before + steps;
    OverwriteBystander(c, s, s3, id, g, w, vid, g2, h, y);
  }

  lemma SizeOfGrant(c: Config, id: Identity, g: C.Grant, w: Source)
    requires IssuedBy(c.registry, c.digest, id, g, w)
    ensures 0 < g.maxSize <= MAX_INT64
  {
    IssuedShape(c.registry, c.digest, id, g, w);
    hide DeriveKey, ValidKey, Validate;
  }

  lemma FromEmpty(c: Config, ids: set<Owner>, steps: seq<Step>, s: State)
    requires Reached(c, ids, steps, s)
    ensures s == Run(c, EMPTY, steps)
  {
  }

  // An upload that is presigned, recorded and put.
  lemma Stored(c: Config, ids: set<Owner>, id: Identity, g: C.Grant, w: Source, body: Bytes)
    returns (steps: seq<Step>, s: State)
    requires IssuedBy(c.registry, c.digest, id, g, w) && OwnerId(id) in ids && HasRoom(c, EMPTY, id, g.maxSize)
    requires |body| <= g.maxSize < MAX_INT64 && C.Reads(g, g) && FileOf(g.key) == Some(g.key)
    ensures Reached(c, ids, steps, s) && s.flights == map[] && s.now == 0
    ensures s.rows == map[g.key := Row(id, g.maxSize, RequestOf(g, w), 0)] && s.objects == map[g.key := body]
    ensures s.issues == {Issue(CapFor(g, PRESIGN_TTL), id)} && s.segments == WithDraw(map[], g.key, g.maxSize)
  {
    hide IssuedBy, Reached, IsDumpKey, UniqueOf, C.Canonical, PutOf, PresignOf, Run, C.Reads, FileOf, HasRoom;
    ReachedNothing(c, ids);
    var s1 := PresignReached(c, ids, [], EMPTY, id, g, w);
    Presigned(c, EMPTY, id, g, w);
    steps := [] + PresignOf(0, id, g, w);
    SizeOfGrant(c, id, g, w);
    s := PutReached(c, ids, steps, s1, g, g, body);
    steps := steps + PutOf(0, g, PRESIGN_TTL, body);
  }

  lemma OverwriteBystander(c: Config, s: State, s3: State, id: Identity, g: C.Grant, w: Source,
                           vid: Identity, g2: C.Grant, h: C.Grant, y: Bytes)
    requires s.flights == map[] && s3.flights == map[] && s3 == Run(c, s, PresignOf(0, id, g, w)) && s3.now == 0
    requires s3.issues == {Issue(CapFor(g2, PRESIGN_TTL), vid), Issue(CapFor(g, PRESIGN_TTL), id)}
    requires C.Canonical(CapFor(g, PRESIGN_TTL)) in s3.signed
    requires C.Reads(h, g) && IsInt64(g2.maxSize) && IsInt64(g.maxSize) && !C.Ambiguous(g2) && g.key != g2.key
    requires OwnerId(id) != OwnerId(vid)
    ensures Isolation.NeverActsFor(c, s, PresignOf(0, id, g, w) + PutOf(0, h, PRESIGN_TTL, y), OwnerId(vid))
  {
    var v := OwnerId(vid);
    hide Run, PutOf, PresignOf, Along, C.Canonical, C.SignedText, C.Ambiguous, Presentable;
    PresignBystander(c, s, 0, id, g, w, v);
    ReadingPresentable(s3, g, h, PRESIGN_TTL);
    C.SameCanonicalExactly(CapFor(h, PRESIGN_TTL), CapFor(g2, PRESIGN_TTL));
    C.UnambiguousExactly(g2);
    assert C.SignedText(g) != C.SignedText(g2) by { assert !C.Reads(g, g2); }
    PutBystander(c, s3, 0, h, PRESIGN_TTL, y, v);
    AlongConcat(c, s, PresignOf(0, id, g, w), PutOf(0, h, PRESIGN_TTL, y), Isolation.Bystander(v));
  }

  // ------------------------------------------------------- and they happen

  function Login(account: string): Identity { Auth.Identity(account, "i", Auth.MethodOIDC, false, false) }

  // v's recorded object goes from one body to a larger one than its row says, in
  // steps that are not for v.
  ghost predicate Overwrites(c: Config, ids: set<Owner>, before: seq<Step>, steps: seq<Step>, v: Owner, key: string)
  {
    var s, t := Run(c, EMPTY, before), Run(c, EMPTY, before + steps);
    && Reached(c, ids, before, s) && Reached(c, ids, before + steps, t) && Isolation.NeverActsFor(c, s, steps, v)
    && key in s.rows && Store.OwnerOfRow(s.rows[key]) == v && OwnerOf(key) == Namespace(c.digest, v)
    && key in t.rows && t.rows[key] == s.rows[key]
    && key in s.objects && |s.objects[key]| == s.rows[key].size
    && key in t.objects && |t.objects[key]| > t.rows[key].size
  }

  // With every place that takes all content types, between any two accounts that
  // the hash tells apart.
  lemma CatchAllOverwrites(r: Registry, digest: Digest, name: string, a: string, b: string)
    returns (before: seq<Step>, steps: seq<Step>, key: string)
    requires Granting(r, name) && r.places[name].allowedMime == [] && ClearPrefix(r.places[name].prefix)
    requires a != "" && b != "" && Namespace(digest, OwnerId(Login(a))) != Namespace(digest, OwnerId(Login(b)))
    ensures var ids := {OwnerId(Login(b)), OwnerId(Login(a))};
            Overwrites(Unlimited(r, digest), ids, before, steps, OwnerId(Login(b)), key)
  {
    var w, w2 := Plainly(name), Elsewhere(name);
    hide CanGrant, ClearPrefix, IssuedBy, Reached, IsDumpKey, OwnerOf, C.Ambiguous, Namespace, Run;
    var g2 := PlaceGrants(r, digest, Login(b), 1, "", w2);
    PlainTypeClear(r, digest, name, Login(b), g2, w2);
    before, steps := OverwriteRun(r, digest, Login(a), w, Login(b), g2, w2, Zeros(1), Zeros(2));
    key := g2.key;
  }

  lemma PlainTypeClear(r: Registry, digest: Digest, name: string, id: Identity, g: C.Grant, w: Source)
    requires Granting(r, name) && w.placeName == name && ClearPrefix(r.places[name].prefix)
    requires IssuedBy(r, digest, id, g, w) && g.contentType == ""
    ensures !C.Ambiguous(g)
  {
    KeyNumerals(DerivationOf(r.places[name], id, RequestOf(g, w), w.stamp, Some(w.random)), digest);
    assert C.Lines("") == [""];
    hide C.NumeralTail, ClearPrefix, DeriveKey, ValidKey;
  }

  // The object under an account key exceeds its row.
  ghost predicate Exceeds(c: Config, ids: set<Owner>, steps: seq<Step>, key: string)
  {
    var s := Run(c, EMPTY, steps);
    && Reached(c, ids, steps, s) && !IsDumpKey(key)
    && key in s.rows && key in s.objects && |s.objects[key]| > s.rows[key].size
  }

  // What such a place signs of two sizes.
  lemma TwoGrants(r: Registry, digest: Digest, name: string) returns (g1: C.Grant, g2: C.Grant)
    requires Granting(r, name) && r.places[name].strategy == STRATEGY_ACCOUNT && r.places[name].maxSize != 1
    ensures IssuedBy(r, digest, USER, g1, Plainly(name)) && IssuedBy(r, digest, USER, g2, Plainly(name))
    ensures g1.maxSize == 1 && g2.maxSize == 2 && g1.key == g2.key && !IsDumpKey(g1.key)
  {
    hide CanGrant, IssuedBy, IsDumpKey;
    var p, w := r.places[name], Plainly(name);
    var t := if p.allowedMime == [] then "" else p.allowedMime[0];
    g1 := PlaceGrants(r, digest, USER, 1, t, w);
    g2 := PlaceGrants(r, digest, USER, 2, t, w);
    SameSourceSameKey(r, digest, USER, g1, g2, w);
  }

  // With every account place that admits two sizes, in both ways.
  lemma AccountPlaceOverruns(r: Registry, digest: Digest, name: string)
    returns (reupload: seq<Step>, stale: seq<Step>, key: string)
    requires Granting(r, name) && r.places[name].strategy == STRATEGY_ACCOUNT && r.places[name].maxSize != 1
    ensures Exceeds(Unlimited(r, digest), {OwnerId(USER)}, reupload, key)
    ensures Exceeds(Unlimited(r, digest), {OwnerId(USER)}, stale, key)
  {
    hide CanGrant, IssuedBy, Reached, IsDumpKey, Run;
    var w := Plainly(name);
    var g1, g2 := TwoGrants(r, digest, name);
    key := g1.key;
    var s, u;
    reupload, s := ReuploadRun(r, digest, USER, g1, w, Zeros(1), g2, w, Zeros(2));
    stale, u := StaleCapabilityRun(r, digest, USER, g2, w, g1, w, Zeros(2));
    FromEmpty(Unlimited(r, digest), {OwnerId(USER)}, reupload, s);
    FromEmpty(Unlimited(r, digest), {OwnerId(USER)}, stale, u);
  }

  lemma NamePrefix(name: string)
    requires Paths.Plain(name) && '\n' !in name
    ensures ClearPrefix(name) && !Paths.Rooted(name) && ".." !in Paths.CleanSegs(name)
  {
    Text.SplitSingle(name, '/');
    Paths.FoldPlain(false, [], [name]);
    assert Paths.CleanSegs(name) == [name];
    Text.SplitSingle(name, '\n');
  }

  // The example configuration, a place with nothing but its name, is such a
  // registry.
  lemma ExampleIsCatchAll(r: Registry, globalMaxSize: int)
    requires IsRegistry(r, map["uploads" := Definition("", "", 0, [], false)], "uploads", globalMaxSize)
    ensures Granting(r, "uploads") && r.places["uploads"].allowedMime == []
    ensures ClearPrefix(r.places["uploads"].prefix) && !Clear(r)
  {
    hide ClearPrefix, Paths.CleanSegs;
    assert Build("uploads", Definition("", "", 0, [], false), globalMaxSize) == Ok(r.places["uploads"]);
    NamePrefix("uploads");
    assert !ClearPlace(r.places["uploads"]);
  }
}
