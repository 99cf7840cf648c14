/** The gateway as a step machine: many requests interleave at the atomic points
    of the handlers, over the metadata rows and the stored objects. */
module Gateway {
  import opened Wrappers
  import opened Timestamps
  import opened Places
  import opened ObjectKeys
  import opened Transfers
  import opened Grants
  import Quotas
  import Capabilities
  import Store
  import Auth

  type Identity = Auth.Identity
  type Owner = Store.Owner

  const PRESIGN_TTL: int := 900 * Capabilities.SECOND

  datatype Config = Config(registry: Registry, quota: Quotas.Policy, digest: Digest)

  // A capability that was signed, and for whom.
  datatype Issue = Issue(cap: Capabilities.Capability, to: Identity)

  // Where a request stands between two of its atomic points.
  datatype Flight =
    | Checked(id: Identity, place: Place, req: Request, oneShot: bool)  // quota passed
    | Keyed(id: Identity, key: string, req: Request, oneShot: bool)     // key derived
    | Ready(id: Identity, key: string, row: Store.Upload)               // signed or written; INSERT is next
    | Putting(cap: Capabilities.Capability)                             // capability verified; body streams in
    | Removing(account: string, issuer: string, keys: seq<string>)      // whose rows are gone; the objects are next

  // A unique segment that was drawn: the key it went into and the size asked for.
  datatype Drawn = Drawn(key: string, size: int)

  // rows and objects are the two stores: rows by object key, objects by the path
  // of their file below the root. signed is every canonical string a MAC was
  // computed for. issues and segments are history variables: who a capability was
  // signed for, what unique segments were drawn for. No step reads them.
  datatype State = State(
    rows: Store.Rows, objects: map<string, Bytes>, signed: set<string>, flights: map<nat, Flight>, now: int,
    issues: set<Issue>, segments: map<string, Drawn>)

  datatype Step =
    | Begin(rid: nat, id: Identity, placeName: string, req: Request, oneShot: bool)
    | Derive(rid: nat, stamp: Stamp, random: Option<Bytes>)
    | Sign(rid: nat)
    | Write(rid: nat, body: Reader)
    | Record(rid: nat)
    | PutBegin(rid: nat, key: string, query: Capabilities.Query, contentType: string, contentLength: int)
    | PutCommit(rid: nat, body: Reader)
    | DeleteRow(rid: nat, id: Identity, key: string)
    | WipeOwn(rid: nat, id: Identity, order: seq<string>)
    | WipeAny(rid: nat, id: Identity, account: string, issuer: string, order: seq<string>)
    | RemoveObject(rid: nat, fault: bool)
    | Abort(rid: nat)
    | Advance(to: int)

  function Row(id: Identity, size: int, req: Request, at: int): Store.Upload
  {
    Store.Upload(id.subject, id.issuer, size, req.contentType, req.filename, at)
  }

  // ------------------------------------------------------ the atomic points

  // Resolve, Validate and the quota read.
  ghost predicate Admits(c: Config, rows: Store.Rows, id: Identity, placeName: string, req: Request, oneShot: bool)
  {
    && (!oneShot ==> req.filename != "")
    && Resolve(c.registry, placeName).Ok?
    && Validate(Resolve(c.registry, placeName).value, req, id.anonymous).None?
    && (!id.anonymous ==>
          Quotas.Check(c.quota, id.subject, Store.UsageReading(rows, OwnerId(id)), req.size).None?)
  }

  ghost function DoBegin(c: Config, s: State, e: Step): State
    requires e.Begin?
  {
    if e.rid !in s.flights && Admits(c, s.rows, e.id, e.placeName, e.req, e.oneShot)
    then s.(flights := s.flights[e.rid := Checked(e.id, Resolve(c.registry, e.placeName).value, e.req, e.oneShot)])
    else s
  }

  function Drop(s: State, rid: nat): State { s.(flights := s.flights - {rid}) }

  function WithDraw(segments: map<string, Drawn>, key: string, size: int): map<string, Drawn>
  {
    if IsDumpKey(key) then segments[UniqueOf(key) := Drawn(key, size)] else segments
  }

  function DoDerive(c: Config, s: State, e: Step): State
    requires e.Derive?
  {
    if e.rid !in s.flights || !s.flights[e.rid].Checked? then s
    else
      var f := s.flights[e.rid];
      var key := DeriveKey(DerivationOf(f.place, f.id, f.req, e.stamp, e.random), c.digest);
      if key.Err? then Drop(s, e.rid)
      else
        s.(flights := s.flights[e.rid := Keyed(f.id, key.value, f.req, f.oneShot)],
           segments := WithDraw(s.segments, key.value, f.req.size))
  }

  function CapabilityFor(s: State, f: Flight): Capabilities.Capability
    requires f.Keyed?
  {
    Capabilities.Capability(f.key, f.req.size, f.req.contentType, s.now + PRESIGN_TTL)
  }

  // PresignUpload.
  function DoSign(s: State, e: Step): State
    requires e.Sign?
  {
    if e.rid !in s.flights || !s.flights[e.rid].Keyed? || s.flights[e.rid].oneShot then s
    else
      var f := s.flights[e.rid];
      if !ValidKey(f.key) then Drop(s, e.rid)
      else
        var cap := CapabilityFor(s, f);
        s.(signed := s.signed + {Capabilities.Canonical(cap)},
           flights := s.flights[e.rid := Ready(f.id, f.key, Row(f.id, f.req.size, f.req, Capabilities.Unix(s.now)))],
           issues := s.issues + {Issue(cap, f.id)})
  }

  // PutObject: the whole body, or nothing. A valid key names its own file.
  function DoWrite(s: State, e: Step): State
    requires e.Write?
  {
    if e.rid !in s.flights || !s.flights[e.rid].Keyed? || !s.flights[e.rid].oneShot then s
    else
      var f := s.flights[e.rid];
      var r := Outcome(f.req.size, e.body);
      if !ValidKey(f.key) || r.Err? then Drop(s, e.rid)
      else
        s.(objects := s.objects[f.key := r.value],
           flights := s.flights[e.rid := Ready(f.id, f.key, Row(f.id, |r.value|, f.req, Capabilities.Unix(s.now)))])
  }

  // RecordUpload: a plain INSERT.
  function DoRecord(s: State, e: Step): State
    requires e.Record?
  {
    if e.rid !in s.flights || !s.flights[e.rid].Ready? then s
    else
      var f := s.flights[e.rid];
      if f.key in s.rows then Drop(s, e.rid)
      else Drop(s, e.rid).(rows := s.rows[f.key := f.row])
  }

  // UploadHandler up to the first byte. An ideal MAC: only tags that were
  // computed can be presented.
  function DoPutBegin(s: State, e: Step): State
    requires e.PutBegin?
  {
    var c := Capabilities.AdmitPut(e.key, e.query, s.now, e.contentType, e.contentLength);
    if e.rid in s.flights || c.Err? || Capabilities.Canonical(c.value) !in s.signed then s
    else s.(flights := s.flights[e.rid := Putting(c.value)])
  }

  // The rename that ends a proxied PUT: over the file that the key denotes,
  // whether or not it is a valid key.
  function DoPutCommit(s: State, e: Step): State
    requires e.PutCommit?
  {
    if e.rid !in s.flights || !s.flights[e.rid].Putting? then s
    else
      var cap := s.flights[e.rid].cap;
      var file, r := FileOf(cap.key), Outcome(cap.maxSize, e.body);
      if file.None? || r.Err? then Drop(s, e.rid)
      else Drop(s, e.rid).(objects := s.objects[file.value := r.value])
  }

  // The row deletion of handleDeleteFile.
  predicate MayDelete(rows: Store.Rows, id: Identity, key: string)
  {
    !id.anonymous && key != "" && key in rows && (id.admin || Store.OwnerOfRow(rows[key]) == OwnerId(id))
  }

  function DoDeleteRow(s: State, e: Step): State
    requires e.DeleteRow?
  {
    if e.rid in s.flights || !MayDelete(s.rows, e.id, e.key) then s
    else
      var row := s.rows[e.key];
      s.(rows := s.rows - {e.key}, flights := s.flights[e.rid := Removing(row.account, row.issuer, [e.key])])
  }

  // The keys a wipe transaction returns: each wiped row once, in some order.
  predicate Enumerates(order: seq<string>, keys: set<string>)
  {
    && (forall k :: k in order ==> k in keys)
    && (forall k :: k in keys ==> k in order)
    && (forall i, j :: 0 <= i < j < |order| ==> order[i] != order[j])
  }

  function DoWipe(s: State, rid: nat, account: string, issuer: string, order: seq<string>): State
  {
    var gone := Store.Wiped(s.rows, account, issuer);
    if rid in s.flights || account == "" || !Enumerates(order, gone) then s
    else s.(rows := s.rows - gone, flights := s.flights[rid := Removing(account, issuer, order)])
  }

  // requireAdmin
  predicate IsAdmin(id: Identity)
  {
    (id.credential == Auth.MethodOIDC || id.credential == Auth.MethodServiceKey) && id.admin
  }

  // DeleteObject for the next key of a delete or wipe; a driver failure is
  // logged and leaves the object behind.
  function DoRemoveObject(s: State, e: Step): State
    requires e.RemoveObject?
  {
    if e.rid !in s.flights || !s.flights[e.rid].Removing? then s
    else
      var f := s.flights[e.rid];
      if f.keys == [] then Drop(s, e.rid)
      else
        s.(objects := if ValidKey(f.keys[0]) && !e.fault then s.objects - {f.keys[0]} else s.objects,
           flights := s.flights[e.rid := Removing(f.account, f.issuer, f.keys[1..])])
  }

  ghost function Next(c: Config, s: State, e: Step): State
  {
    match e
    case Begin(_, _, _, _, _) => DoBegin(c, s, e)
    case Derive(_, _, _) => DoDerive(c, s, e)
    case Sign(_) => DoSign(s, e)
    case Write(_, _) => DoWrite(s, e)
    case Record(_) => DoRecord(s, e)
    case PutBegin(_, _, _, _, _) => DoPutBegin(s, e)
    case PutCommit(_, _) => DoPutCommit(s, e)
    case DeleteRow(_, _, _) => DoDeleteRow(s, e)
    case WipeOwn(rid, id, order) => if id.anonymous then s else DoWipe(s, rid, id.subject, id.issuer, order)
    case WipeAny(rid, id, account, issuer, order) =>
      if !IsAdmin(id) then s else DoWipe(s, rid, account, issuer, order)
    case RemoveObject(_, _) => DoRemoveObject(s, e)
    case Abort(rid) => Drop(s, rid)
    case Advance(to) => if to > s.now then s.(now := to) else s
  }

  ghost function Run(c: Config, s: State, steps: seq<Step>): State
  {
    if steps == [] then s else Next(c, Run(c, s, steps[..|steps| - 1]), steps[|steps| - 1])
  }

  const EMPTY := State(map[], map[], {}, map[], 0, {}, map[])

  // Something that holds of each step of a run, in the state it is taken in.
  ghost predicate Along(c: Config, s: State, steps: seq<Step>, ok: (State, Step) -> bool)
  {
    forall n :: 0 <= n < |steps| ==> ok(Run(c, s, steps[..n]), steps[n])
  }

  lemma AlongBefore(c: Config, s: State, steps: seq<Step>, ok: (State, Step) -> bool, n: nat)
    requires Along(c, s, steps, ok) && n < |steps|
    ensures Along(c, s, steps[..n], ok) && ok(Run(c, s, steps[..n]), steps[n])
  {
    hide Run;
    forall j | 0 <= j < n ensures ok(Run(c, s, steps[..n][..j]), steps[..n][j]) {
      assert steps[..n][..j] == steps[..j];
    }
  }

  lemma AlongConcat(c: Config, s: State, a: seq<Step>, b: seq<Step>, ok: (State, Step) -> bool)
    requires Along(c, s, a, ok) && Along(c, Run(c, s, a), b, ok)
    ensures Along(c, s, a + b, ok)
  {
    hide Run;
    forall n | 0 <= n < |a + b| ensures ok(Run(c, s, (a + b)[..n]), (a + b)[n]) {
      if n < |a| {
        assert (a + b)[..n] == a[..n];
      } else {
        assert (a + b)[..n] == a + b[..n - |a|];
        RunConcat(c, s, a, b[..n - |a|]);
      }
    }
  }

  // Which function a step runs.
  lemma Dispatch(c: Config, s: State, e: Step)
    ensures e.Begin? ==> Next(c, s, e) == DoBegin(c, s, e)
    ensures e.Derive? ==> Next(c, s, e) == DoDerive(c, s, e)
    ensures e.Sign? ==> Next(c, s, e) == DoSign(s, e)
    ensures e.Write? ==> Next(c, s, e) == DoWrite(s, e)
    ensures e.Record? ==> Next(c, s, e) == DoRecord(s, e)
    ensures e.PutBegin? ==> Next(c, s, e) == DoPutBegin(s, e)
    ensures e.PutCommit? ==> Next(c, s, e) == DoPutCommit(s, e)
    ensures e.DeleteRow? ==> Next(c, s, e) == DoDeleteRow(s, e)
    ensures e.RemoveObject? ==> Next(c, s, e) == DoRemoveObject(s, e)
    ensures e.Abort? ==> Next(c, s, e) == Drop(s, e.rid)
  {
    hide DoBegin, DoDerive, DoSign, DoWrite, DoRecord, DoPutBegin, DoPutCommit, DoDeleteRow, DoRemoveObject;
  }

  // Runs compose.
  lemma {:induction false} RunConcat(c: Config, s: State, a: seq<Step>, b: seq<Step>)
    ensures Run(c, s, a + b) == Run(c, Run(c, s, a), b)
    decreases |b|
  {
    hide Next;
    if b == [] {
      assert a + b == a;
    } else {
      assert (a + b)[..|a + b| - 1] == a + b[..|b| - 1];
      RunConcat(c, s, a, b[..|b| - 1]);
    }
  }

  lemma RunSnoc(c: Config, s: State, steps: seq<Step>, e: Step)
    ensures Run(c, s, steps + [e]) == Next(c, Run(c, s, steps), e)
    ensures Run(c, s, []) == s
  {
    hide Next;
    assert (steps + [e])[..|steps + [e]| - 1] == steps;
  }

  lemma RunOfTwo(c: Config, s: State, a: Step, b: Step)
    ensures Run(c, s, [a, b]) == Next(c, Next(c, s, a), b)
  {
    hide Next, Run;
    RunSnoc(c, s, [], a);
    RunSnoc(c, s, [a], b);
    assert [] + [a] == [a] && [a] + [b] == [a, b];
  }

  lemma RunOfThree(c: Config, s: State, a: Step, b: Step, d: Step)
    ensures Run(c, s, [a, b, d]) == Next(c, Next(c, Next(c, s, a), b), d)
  {
    hide Next, Run;
    RunOfTwo(c, s, a, b);
    RunSnoc(c, s, [a, b], d);
    assert [a, b] + [d] == [a, b, d];
  }

  lemma RunOfFour(c: Config, s: State, a: Step, b: Step, d: Step, e: Step)
    ensures Run(c, s, [a, b, d, e]) == Next(c, Next(c, Next(c, Next(c, s, a), b), d), e)
  {
    hide Next, Run;
    RunOfThree(c, s, a, b, d);
    RunSnoc(c, s, [a, b, d], e);
    assert [a, b, d] + [e] == [a, b, d, e];
  }
}
