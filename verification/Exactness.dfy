/** When the gateway keeps its word: conditions on a registry's places that are
    equivalent to isolation and to capability safety over every run, and the runs
    from the empty gateway in which these fail. */
module Exactness {
  import opened Wrappers
  import opened Decimal
  import opened Timestamps
  import opened ObjectKeys
  import opened Places
  import opened Transfers
  import opened Gateway
  import opened Grants
  import opened Reach
  import opened Scripts
  import opened Isolation
  import C = Capabilities
  import Quotas
  import Auth

  predicate ProperRun(ids: set<Owner>, steps: seq<Step>)
  {
    forall i :: 0 <= i < |steps| ==> Proper(ids, steps[i])
  }

  lemma ProperConcat(ids: set<Owner>, a: seq<Step>, b: seq<Step>)
    requires ProperRun(ids, a) && ProperRun(ids, b)
    ensures ProperRun(ids, a + b)
  {
    hide Proper;
  }

  lemma PresignProper(r: Registry, digest: Digest, ids: set<Owner>, rid: nat, id: Identity, g: C.Grant, w: Source)
    requires IssuedBy(r, digest, id, g, w) && (!id.anonymous ==> OwnerId(id) in ids)
    ensures ProperRun(ids, PresignOf(rid, id, g, w))
  {
    hide DeriveKey, ValidKey, Validate, Resolve;
  }

  lemma PutProper(ids: set<Owner>, rid: nat, h: C.Grant, expires: int, body: Bytes)
    ensures ProperRun(ids, PutOf(rid, h, expires, body))
  {
  }

  // ------------------------------------------------- signed for exactly this

  // Signed earlier for exactly this key, size and content type, and not expired.
  ghost predicate SignedFor(s: State, e: Step)
    requires e.PutBegin?
  {
    exists i :: i in s.issues && i.cap.key == e.key && ParseInt64(e.query.size) == Some(i.cap.maxSize)
      && e.query.ct == i.cap.contentType && s.now <= C.Unix(i.cap.expires) * C.SECOND
  }

  ghost predicate PutSigned(c: Config, ids: set<Owner>, steps: seq<Step>, e: Step)
  {
    ProperRun(ids, steps) && e.PutBegin? && Next(c, Run(c, EMPTY, steps), e) != Run(c, EMPTY, steps) ==>
      SignedFor(Run(c, EMPTY, steps), e)
  }

  ghost predicate EveryPutSigned(r: Registry, digest: Digest)
  {
    forall quota: Quotas.Policy, ids: set<Owner>, steps: seq<Step>, e: Step ::
      PutSigned(Config(r, quota, digest), ids, steps, e)
  }

  lemma ClearPutSigned(c: Config, ids: set<Owner>, steps: seq<Step>, e: Step)
    requires Clear(c.registry)
    ensures PutSigned(c, ids, steps, e)
  {
    if ProperRun(ids, steps) && e.PutBegin? && Next(c, Run(c, EMPTY, steps), e) != Run(c, EMPTY, steps) {
      hide Clear, C.SignedText, Run, Next, Issuable, Proper;
      var i := AcceptedPutWasSigned(c, ids, steps, e);
      var h := C.Grant(e.key, ParseInt64(e.query.size).value, e.query.ct);
      ClearReading(c.registry, c.digest, i.to, C.GrantOf(i.cap), h);
    }
  }

  // The gateway after its first presign.
  lemma FirstPresign(r: Registry, digest: Digest, id: Identity, g: C.Grant, w: Source)
    requires IssuedBy(r, digest, id, g, w)
    ensures var s := Run(Unlimited(r, digest), EMPTY, PresignOf(0, id, g, w));
            && s.flights == map[] && s.now == 0 && s.issues == {Issue(CapFor(g, PRESIGN_TTL), id)}
            && C.Canonical(CapFor(g, PRESIGN_TTL)) in s.signed && Auth.WellFormed(id)
  {
    PresignGrants(Unlimited(r, digest), EMPTY, 0, id, g, w);
    hide Run, C.Canonical, PresignOf, IsDumpKey, UniqueOf;
  }

  // What was signed can be presented in any of its readings.
  lemma ReadingPresentable(s: State, g: C.Grant, h: C.Grant, expires: int)
    requires C.Canonical(CapFor(g, expires)) in s.signed && C.Reads(h, g)
    requires IsInt64(C.Unix(expires)) && s.now <= C.Unix(expires) * C.SECOND
    ensures Presentable(s, h, expires)
  {
    C.SameCanonicalExactly(CapFor(h, expires), CapFor(g, expires));
    hide C.Canonical, C.SignedText;
  }

  // The first half of a PUT that presents h, after g was signed in an empty
  // gateway.
  lemma OtherReadingAccepted(r: Registry, digest: Digest, id: Identity, g: C.Grant, w: Source, h: C.Grant)
    returns (s: State, e: Step)
    requires IssuedBy(r, digest, id, g, w) && C.Reads(h, g) && h != g
    ensures s == Run(Unlimited(r, digest), EMPTY, PresignOf(0, id, g, w)) && e.PutBegin?
    ensures Next(Unlimited(r, digest), s, e) != s && !SignedFor(s, e)
  {
    hide Next, Run, C.AdmitPut, C.Canonical, C.SignedText, IssuedBy, ParseInt64, Format, PresignOf, Presentable;
    FirstPresign(r, digest, id, g, w);
    s := Run(Unlimited(r, digest), EMPTY, PresignOf(0, id, g, w));
    ReadingPresentable(s, g, h, PRESIGN_TTL);
    PutAdmitted(s, h, PRESIGN_TTL);
    ParseFormat(h.maxSize);
    e := PutBegin(0, h.key, C.SignUpload(CapFor(h, PRESIGN_TTL)), h.contentType, 0);
    Dispatch(Unlimited(r, digest), s, e);
    PresentedCanonical(s, h, PRESIGN_TTL);
  }

  lemma PresentedCanonical(s: State, h: C.Grant, expires: int)
    requires Presentable(s, h, expires)
    ensures C.Canonical(CapFor(h, expires)) in s.signed
  {
  }

  // Every accepted PUT was signed for exactly its key, size and content type, in
  // every run and under every quota, if and only if the registry is clear.
  lemma SignedPutsExactly(r: Registry, digest: Digest)
    ensures EveryPutSigned(r, digest) <==> Clear(r)
  {
    hide PutSigned, Granting, ClearPlace, IssuedBy, C.Ambiguous;
    if Clear(r) {
      forall quota, ids, steps, e ensures PutSigned(Config(r, quota, digest), ids, steps, e) {
        ClearPutSigned(Config(r, quota, digest), ids, steps, e);
      }
    } else {
      var n :| n in r.places && Granting(r, n) && !ClearPlace(r.places[n]);
      UnclearUnsigned(r, digest, n);
    }
  }

  lemma UnclearUnsigned(r: Registry, digest: Digest, name: string)
    requires Granting(r, name) && !ClearPlace(r.places[name])
    ensures !EveryPutSigned(r, digest)
  {
    hide Granting, ClearPlace, IssuedBy, C.Ambiguous, C.SignedText, Run, Next;
    var w := Plainly(name);
    var g := UnclearGrant(r, digest, name);
    C.UnambiguousExactly(g);
    var h :| C.Reads(h, g) && h != g;
    var s, e := OtherReadingAccepted(r, digest, USER, g, w, h);
    PresignProper(r, digest, {OwnerId(USER)}, 0, USER, g, w);
    hide Proper, SignedFor, PresignOf;
    assert !PutSigned(Config(r, Quotas.Policy(0, map[]), digest), {OwnerId(USER)}, PresignOf(0, USER, g, w), e);
  }

  // ---------------------------------------------------------------- isolation

  ghost predicate IsolatedRun(c: Config, ids: set<Owner>, before: seq<Step>, steps: seq<Step>, v: Owner)
  {
    && CollisionFree(c, ids) && Party(ids, v) && ProperRun(ids, before) && ProperRun(ids, steps)
    && NeverActsFor(c, Run(c, EMPTY, before), steps, v)
    ==> SameShare(c, Run(c, EMPTY, before), Run(c, EMPTY, before + steps), v)
  }

  ghost predicate EveryRunIsolated(r: Registry, digest: Digest)
  {
    forall quota: Quotas.Policy, ids: set<Owner>, before: seq<Step>, steps: seq<Step>, v: Owner ::
      IsolatedRun(Config(r, quota, digest), ids, before, steps, v)
  }

  // A request stays its caller's until it is recorded.
  lemma StillHis(c: Config, s: State, rid: nat, id: Identity, placeName: string, req: Request, stamp: Stamp,
                 random: Option<Bytes>)
    requires rid !in s.flights
    ensures var s2 := Next(c, Next(c, s, Begin(rid, id, placeName, req, false)), Derive(rid, stamp, random));
            var t := Next(c, s2, Sign(rid));
            rid in t.flights && t.flights[rid].Ready? ==> t.flights[rid].id == id
  {
    hide DeriveKey, ValidKey, C.Canonical, Admits, Next, IsDumpKey, UniqueOf;
    BeginThenDerive(c, s, rid, id, placeName, req, false, stamp, random);
    var s2 := Next(c, Next(c, s, Begin(rid, id, placeName, req, false)), Derive(rid, stamp, random));
    Dispatch(c, s2, Sign(rid));
  }

  lemma PresignBystander(c: Config, s: State, rid: nat, id: Identity, g: C.Grant, w: Source, v: Owner)
    requires rid !in s.flights && OwnerId(id) != v
    ensures NeverActsFor(c, s, PresignOf(rid, id, g, w), v)
  {
    FirstSteps(c, s, PresignOf(rid, id, g, w));
    StillHis(c, s, rid, id, w.placeName, RequestOf(g, w), w.stamp, Some(w.random));
    hide Next, Run;
  }

  lemma PutBystander(c: Config, s: State, rid: nat, h: C.Grant, expires: int, body: Bytes, v: Owner)
    requires rid !in s.flights && Presentable(s, h, expires)
    requires forall i :: i in s.issues && C.Canonical(i.cap) == C.Canonical(CapFor(h, expires)) ==> OwnerId(i.to) != v
    ensures NeverActsFor(c, s, PutOf(rid, h, expires, body), v)
  {
    var steps := PutOf(rid, h, expires, body);
    FirstSteps(c, s, steps);
    PutAdmitted(s, h, expires);
    Dispatch(c, s, steps[0]);
    hide Next, Run, C.AdmitPut, C.Canonical, C.SignUpload;
  }

  // A reading of a grant to id that reaches v's namespace, put to use in an
  // empty gateway.
  // The identified ones of two owners.
  function Identified(a: Owner, b: Owner): set<Owner> { set o | o in {a, b} && o.account != "" }

  lemma StrayReading(r: Registry, digest: Digest, id: Identity, g: C.Grant, w: Source, h: C.Grant, v: Owner)
    requires IssuedBy(r, digest, id, g, w) && C.Reads(h, g) && Reaches(digest, h, v)
    requires Namespace(digest, v) != Namespace(digest, OwnerId(id))
    ensures !EveryRunIsolated(r, digest)
  {
    var c, ids := Unlimited(r, digest), Identified(v, OwnerId(id));
    var steps := StrayRun(r, digest, id, g, w, h, v);
    PairApart(c, v, OwnerId(id));
    hide Run, Next, IssuedBy, C.Reads, Along, Namespace, CollisionFree, Proper, FileOf, OwnerOf;
    assert Run(c, EMPTY, []) == EMPTY by { RunSnoc(c, EMPTY, [], Advance(0)); }
    assert [] + steps == steps;
    assert FileOf(h.key).value in ObjectsIn(Run(c, EMPTY, steps).objects, Namespace(digest, v));
    assert !SameShare(c, EMPTY, Run(c, EMPTY, steps), v);
    NothingProper(ids);
    hide SameShare, ProperRun;
    assert !IsolatedRun(Config(r, Quotas.Policy(0, map[]), digest), ids, [], steps, v);
  }

  lemma IdentifiedCaller(v: Owner, id: Identity)
    ensures Auth.WellFormed(id) && !id.anonymous ==> OwnerId(id) in Identified(v, OwnerId(id))
  {
  }

  lemma StrayRun(r: Registry, digest: Digest, id: Identity, g: C.Grant, w: Source, h: C.Grant, v: Owner)
    returns (steps: seq<Step>)
    requires IssuedBy(r, digest, id, g, w) && C.Reads(h, g) && FileOf(h.key).Some? && OwnerId(id) != v
    ensures NeverActsFor(Unlimited(r, digest), EMPTY, steps, v)
    ensures ProperRun(Identified(v, OwnerId(id)), steps)
    ensures FileOf(h.key).value in Run(Unlimited(r, digest), EMPTY, steps).objects
  {
    var c, ids := Unlimited(r, digest), Identified(v, OwnerId(id));
    var a, b := PresignOf(0, id, g, w), PutOf(0, h, PRESIGN_TTL, []);
    hide Run, Next, C.Canonical, C.Reads, PutOf, PresignOf, Proper, ProperRun, FileOf, OwnerOf, Along, IssuedBy;
    hide Identified, Presentable;
    FirstPresign(r, digest, id, g, w);
    var s := Run(c, EMPTY, a);
    ReadingPresentable(s, g, h, PRESIGN_TTL);
    EmptyBodyLands(c, s, h);
    PresignBystander(c, EMPTY, 0, id, g, w, v);
    PutBystander(c, s, 0, h, PRESIGN_TTL, [], v);
    IdentifiedCaller(v, id);
    PresignProper(r, digest, ids, 0, id, g, w);
    PutProper(ids, 0, h, PRESIGN_TTL, []);
    ProperConcat(ids, a, b);
    AlongConcat(c, EMPTY, a, b, Bystander(v));
    RunConcat(c, EMPTY, a, b);
    steps := a + b;
  }

  lemma NothingProper(ids: set<Owner>)
    ensures ProperRun(ids, [])
  {
  }

  lemma EmptyOutcome(limit: int)
    ensures Outcome(limit, Whole([])) == Ok([])
  {
    var empty: Bytes := [];
    assert [empty][..0] == [] && Body([]) == [];
  }

  lemma EmptyBodyLands(c: Config, s: State, h: C.Grant)
    requires s.flights == map[] && Presentable(s, h, PRESIGN_TTL) && FileOf(h.key).Some?
    ensures var t := Run(c, s, PutOf(0, h, PRESIGN_TTL, []));
            t.rows == s.rows && t.objects == s.objects[FileOf(h.key).value := []]
  {
    hide Run, Outcome, FileOf, C.Canonical, C.AdmitPut, C.SignUpload, Presentable;
    PutAdmitted(s, h, PRESIGN_TTL);
    EmptyOutcome(h.maxSize);
    PresentedCanonical(s, h, PRESIGN_TTL);
    PutRun(c, s, 0, h.key, C.SignUpload(CapFor(h, PRESIGN_TTL)), h.contentType, 0, Whole([]));
  }

  lemma PairApart(c: Config, a: Owner, b: Owner)
    requires Namespace(c.digest, a) != Namespace(c.digest, b)
    ensures CollisionFree(c, Identified(a, b))
  {
  }

  // Every run isolates owners, under every quota, if and only if no reading of
  // what the registry signs reaches a namespace other than its signer's.
  lemma {:induction false} IsolatedExactly(r: Registry, digest: Digest)
    ensures EveryRunIsolated(r, digest) <==> Homebound(r, digest)
  {
    hide Issuable, C.Reads, Reaches, Namespace, IsolatedRun;
    if Homebound(r, digest) {
      forall quota, ids, before, steps, v ensures IsolatedRun(Config(r, quota, digest), ids, before, steps, v) {
        HomeboundIsolated(Config(r, quota, digest), ids, before, steps, v);
      }
    } else {
      var id, g, h, v :| Issuable(r, digest, id, g) && C.Reads(h, g) && Reaches(digest, h, v)
        && Namespace(digest, v) != Namespace(digest, OwnerId(id));
      StraySource(r, digest, id, g, h, v);
    }
  }

  lemma StraySource(r: Registry, digest: Digest, id: Identity, g: C.Grant, h: C.Grant, v: Owner)
    requires Issuable(r, digest, id, g) && C.Reads(h, g) && Reaches(digest, h, v)
    requires Namespace(digest, v) != Namespace(digest, OwnerId(id))
    ensures !EveryRunIsolated(r, digest)
  {
    hide IssuedBy, C.Reads, Reaches, Namespace, EveryRunIsolated;
    var w: Source :| IssuedBy(r, digest, id, g, w);
    StrayReading(r, digest, id, g, w, h, v);
  }

  lemma HomeboundIsolated(c: Config, ids: set<Owner>, before: seq<Step>, steps: seq<Step>, v: Owner)
    requires Homebound(c.registry, c.digest)
    ensures IsolatedRun(c, ids, before, steps, v)
  {
    hide Homebound, CollisionFree, Proper, Along, SameShare, Run, Party;
    if CollisionFree(c, ids) && Party(ids, v) && ProperRun(ids, before) && ProperRun(ids, steps)
       && NeverActsFor(c, Run(c, EMPTY, before), steps, v)
    {
      OwnerIsolation(c, ids, before, steps, v);
    }
  }

  // A clear registry isolates owners; one with a place that takes every content
  // type does not.
  lemma {:induction false} TypesDecide(r: Registry, digest: Digest)
    ensures Clear(r) ==> EveryRunIsolated(r, digest)
    ensures (exists n :: n in r.places && Granting(r, n) && r.places[n].allowedMime == []) ==>
              !EveryRunIsolated(r, digest)
  {
    hide Clear, Homebound, EveryRunIsolated, Granting;
    IsolatedExactly(r, digest);
    if Clear(r) { ClearHomebound(r, digest); }
    if n :| n in r.places && Granting(r, n) && r.places[n].allowedMime == [] { CatchAllStrays(r, digest, n); }
  }
}
