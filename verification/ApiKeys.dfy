/** The life of an API key: minted by an OIDC login, used, revoked, expired. */
module ApiKeys {
  import opened Wrappers
  import opened Auth

  // What stays fixed while Depot runs.
  datatype Env = Env(config: Config, secret: string, verify: string -> Option<Token>, hash: string -> string)

  ghost predicate GoodEnv(env: Env)
  {
    && ValidConfig(env.config) && BuildAuth(env.config, env.secret).Some?
    && forall raw :: env.verify(raw).Some? ==> env.verify(raw).value.issuer == env.config.issuer
  }

  // Who minted a key, and until when; a history variable, never read by a step.
  datatype Minting = Minting(account: string, issuer: string, expires: Option<int>)

  datatype State = State(table: KeyTable, now: int, minted: map<string, Minting>)

  const EMPTY := State(map[], 0, map[])

  datatype Step =
    | Create(bearer: Option<string>, id: string, raw: string, keyLabel: string, expires: Option<int>)
    | Revoke(bearer: Option<string>, id: string)
    | Use(bearer: Option<string>)
    | Advance(to: int)

  function Caller(env: Env, s: State, bearer: Option<string>): Result<Identity, AuthError>
    requires BuildAuth(env.config, env.secret).Some?
  {
    Authenticate(BuildAuth(env.config, env.secret).value, bearer, World(env.verify, env.hash, s.table, s.now))
  }

  // requireOIDC: key management is closed to every other credential.
  predicate MayManage(r: Result<Identity, AuthError>) { r.Ok? && r.value.credential == MethodOIDC }

  predicate IdInUse(t: KeyTable, id: string) { exists h :: h in t && t[h].id == id }

  function Minted(id: string, account: string, issuer: string, keyLabel: string, expires: Option<int>): KeyRow
  {
    KeyRow(id, account, issuer, keyLabel, if expires.Some? then Some(expires.value / SECOND) else None, None)
  }

  function WithoutKey(t: KeyTable, id: string, account: string, issuer: string): KeyTable
  {
    map h | h in t && !(t[h].id == id && t[h].account == account && t[h].issuer == issuer) :: t[h]
  }

  function TouchedKey(t: KeyTable, id: string, now: int): KeyTable
  {
    map h | h in t :: if t[h].id == id then t[h].(lastUsedAt := Some(now / SECOND)) else t[h]
  }

  // Whether handleCreateKey gets as far as the INSERT, and the INSERT succeeds.
  predicate Creates(env: Env, s: State, e: Step)
    requires BuildAuth(env.config, env.secret).Some? && e.Create?
  {
    && MayManage(Caller(env, s, e.bearer))
    && e.keyLabel != ""
    && (e.expires.Some? ==> s.now <= e.expires.value)
    && env.hash(e.raw) !in s.table && !IdInUse(s.table, e.id)
  }

  function Next(env: Env, s: State, e: Step): State
    requires BuildAuth(env.config, env.secret).Some?
  {
    match e
    case Create(bearer, id, raw, keyLabel, expires) =>
      if !Creates(env, s, e) then s
      else
        var c := Caller(env, s, bearer).value;
        s.(table := s.table[env.hash(raw) := Minted(id, c.subject, c.issuer, keyLabel, expires)],
           minted := s.minted[env.hash(raw) := Minting(c.subject, c.issuer, expires)])
    case Revoke(bearer, id) =>
      var c := Caller(env, s, bearer);
      if !MayManage(c) || id == "" then s
      else s.(table := WithoutKey(s.table, id, c.value.subject, c.value.issuer))
    case Use(bearer) =>
      var c := Caller(env, s, bearer);
      if c.Ok? && c.value.credential == MethodAPIKey && bearer.Some? && env.hash(bearer.value) in s.table
      then s.(table := TouchedKey(s.table, s.table[env.hash(bearer.value)].id, s.now))
      else s
    case Advance(to) => if to > s.now then s.(now := to) else s
  }

  function Run(env: Env, s: State, steps: seq<Step>): State
    requires BuildAuth(env.config, env.secret).Some?
  {
    if steps == [] then s else Next(env, Run(env, s, steps[..|steps| - 1]), steps[|steps| - 1])
  }

  ghost predicate Inv(s: State)
  {
    && KeysOwned(s.table)
    && (forall h :: h in s.table ==> Faithful(s, h))
    && (forall g, h :: g in s.table && h in s.table && s.table[g].id == s.table[h].id ==> g == h)
  }

  // The stored row says what was granted when the key was minted.
  predicate Faithful(s: State, h: string)
    requires h in s.table
  {
    && h in s.minted
    && s.table[h].account == s.minted[h].account && s.table[h].issuer == s.minted[h].issuer
    && s.table[h].expiresAt == (if s.minted[h].expires.Some? then Some(s.minted[h].expires.value / SECOND) else None)
  }

  lemma CallerWellFormed(env: Env, s: State, bearer: Option<string>)
    requires GoodEnv(env) && Inv(s)
    ensures Caller(env, s, bearer).Ok? ==> WellFormed(Caller(env, s, bearer).value)
  {
    EveryIdentityWellFormed(env.config, env.secret, bearer, World(env.verify, env.hash, s.table, s.now));
  }

  lemma CreateKeepsInv(env: Env, s: State, e: Step)
    requires GoodEnv(env) && Inv(s) && e.Create?
    ensures Inv(Next(env, s, e))
  {
    CallerWellFormed(env, s, e.bearer);
    hide Caller, GoodEnv;
    var t := Next(env, s, e);
    forall h | h in t.table ensures Faithful(t, h) {
      if h in s.table { assert Faithful(s, h); }
    }
  }

  lemma TableShrinks(s: State, t: State)
    requires Inv(s) && t.minted == s.minted
    requires forall h :: h in t.table ==>
               h in s.table && t.table[h].(lastUsedAt := None) == s.table[h].(lastUsedAt := None)
    ensures Inv(t)
  {
    forall h | h in t.table ensures Faithful(t, h) { assert Faithful(s, h); }
    forall g, h | g in t.table && h in t.table && t.table[g].id == t.table[h].id ensures g == h {
      assert s.table[g].id == t.table[g].id && s.table[h].id == t.table[h].id;
    }
    forall h | h in t.table ensures t.table[h].account != "" && t.table[h].issuer != "" {
      assert s.table[h].account == t.table[h].account && s.table[h].issuer == t.table[h].issuer;
    }
  }

  lemma StepKeepsInv(env: Env, s: State, e: Step)
    requires GoodEnv(env) && Inv(s)
    ensures Inv(Next(env, s, e))
  {
    hide Caller;
    if e.Create? {
      CreateKeepsInv(env, s, e);
    } else {
      TableShrinks(s, Next(env, s, e));
    }
  }

  lemma {:induction false} RunKeepsInv(env: Env, s: State, steps: seq<Step>)
    requires GoodEnv(env) && Inv(s)
    ensures Inv(Run(env, s, steps))
  {
    if steps != [] {
      RunKeepsInv(env, s, steps[..|steps| - 1]);
      StepKeepsInv(env, Run(env, s, steps[..|steps| - 1]), steps[|steps| - 1]);
    }
  }

  // In every reachable state, for every configuration, whatever authenticates is
  // well formed; and a key that authenticates does so as its minter, not past
  // the whole second in which it expires.
  lemma RunsAuthenticateFaithfully(env: Env, steps: seq<Step>, bearer: Option<string>)
    requires GoodEnv(env)
    ensures var s := Run(env, EMPTY, steps); var r := Caller(env, s, bearer);
            && (r.Ok? ==> WellFormed(r.value))
            && (r.Ok? && r.value.credential == MethodAPIKey ==>
                  && bearer.Some? && env.hash(bearer.value) in s.minted
                  && var m := s.minted[env.hash(bearer.value)];
                     && r.value.subject == m.account && r.value.issuer == m.issuer
                     && (m.expires.Some? ==> s.now <= m.expires.value / SECOND * SECOND))
  {
    RunKeepsInv(env, EMPTY, steps);
    var s := Run(env, EMPTY, steps);
    CallerWellFormed(env, s, bearer);
    var r := Caller(env, s, bearer);
    if r.Ok? && r.value.credential == MethodAPIKey {
      KeyIdentityFromTable(env, s, bearer);
      assert Faithful(s, env.hash(bearer.value));
    }
  }

  lemma KeyIdentityFromTable(env: Env, s: State, bearer: Option<string>)
    requires BuildAuth(env.config, env.secret).Some?
    requires Caller(env, s, bearer).Ok? && Caller(env, s, bearer).value.credential == MethodAPIKey
    ensures bearer.Some?
    ensures Caller(env, s, bearer) == AuthenticateKey(bearer.value, World(env.verify, env.hash, s.table, s.now))
  {
    var w := World(env.verify, env.hash, s.table, s.now);
    RouterKey(env.config, bearer, w);
    var a := BuildAuth(env.config, env.secret).value;
    if a.Chain? && bearer.Some? {
      var t := a.token.value;
      assert Authenticate(a, bearer, w) == Authenticate(t, bearer, w);
      if t.ServiceKey? && t.inner.Some? && bearer.value != t.key {
        assert Authenticate(t, bearer, w) == Authenticate(t.inner.value, bearer, w);
      }
    }
  }

  // Keys appear only by an OIDC caller's mint, for that caller; they disappear
  // only by their owner's OIDC revoke; in between their grant does not change.
  lemma KeysChangeOnlyByOwner(env: Env, s: State, e: Step, h: string)
    requires GoodEnv(env) && Inv(s)
    ensures var t := Next(env, s, e).table;
            && (h !in s.table && h in t ==>
                  && e.Create? && h == env.hash(e.raw) && MayManage(Caller(env, s, e.bearer))
                  && t[h].account == Caller(env, s, e.bearer).value.subject
                  && t[h].issuer == Caller(env, s, e.bearer).value.issuer)
            && (h in s.table && h !in t ==>
                  && e.Revoke? && e.id == s.table[h].id && MayManage(Caller(env, s, e.bearer))
                  && s.table[h].account == Caller(env, s, e.bearer).value.subject
                  && s.table[h].issuer == Caller(env, s, e.bearer).value.issuer)
            && (h in s.table && h in t ==> t[h].(lastUsedAt := None) == s.table[h].(lastUsedAt := None))
  {
    hide Authenticate, BuildAuth;
  }

  // Over runs: whatever is stored was minted by a login, which is its owner, and
  // expires in the second that was asked for.
  lemma {:induction false} StoredKeyWasMinted(env: Env, steps: seq<Step>, h: string) returns (n: nat)
    requires GoodEnv(env) && h in Run(env, EMPTY, steps).table
    ensures n < |steps| && steps[n].Create? && h == env.hash(steps[n].raw)
    ensures var s := Run(env, EMPTY, steps[..n]);
            && Creates(env, s, steps[n])
            && var k, c := Run(env, EMPTY, steps).table[h], Caller(env, s, steps[n].bearer).value;
               && k.id == steps[n].id && k.account == c.subject && k.issuer == c.issuer
               && k.keyLabel == steps[n].keyLabel
               && k.expiresAt == if steps[n].expires.Some? then Some(steps[n].expires.value / 1_000_000_000) else None
  {
    hide Caller, Creates;
    var before, last := steps[..|steps| - 1], steps[|steps| - 1];
    var s := Run(env, EMPTY, before);
    RunKeepsInv(env, EMPTY, before);
    KeysChangeOnlyByOwner(env, s, last, h);
    if h in s.table {
      GrantOf(Next(env, s, last).table[h], s.table[h]);
      n := StoredKeyWasMinted(env, before, h);
      if last.Create? && h == env.hash(last.raw) { TakenHash(env, s, last); }
      assert before[..n] == steps[..n];
    } else {
      n := |before|;
      OnlyMintsAdd(env, s, last, h);
      MintStores(env, s, last);
    }
  }

  lemma GrantOf(k: KeyRow, was: KeyRow)
    requires k.(lastUsedAt := None) == was.(lastUsedAt := None)
    ensures k.id == was.id && k.account == was.account && k.issuer == was.issuer
    ensures k.keyLabel == was.keyLabel && k.expiresAt == was.expiresAt
  {
    assert k.(lastUsedAt := None).id == k.id && k.(lastUsedAt := None).account == k.account;
    assert k.(lastUsedAt := None).issuer == k.issuer && k.(lastUsedAt := None).keyLabel == k.keyLabel;
    assert k.(lastUsedAt := None).expiresAt == k.expiresAt;
  }

  lemma TakenHash(env: Env, s: State, e: Step)
    requires BuildAuth(env.config, env.secret).Some? && e.Create? && env.hash(e.raw) in s.table
    ensures !Creates(env, s, e)
  {
  }

  // The row a mint stores, for the caller and as the request says.
  ghost predicate MintedBy(env: Env, s: State, e: Step, k: KeyRow)
    requires BuildAuth(env.config, env.secret).Some? && e.Create? && Caller(env, s, e.bearer).Ok?
  {
    var c := Caller(env, s, e.bearer).value;
    && k.id == e.id && k.account == c.subject && k.issuer == c.issuer && k.keyLabel == e.keyLabel
    && k.expiresAt == if e.expires.Some? then Some(e.expires.value / 1_000_000_000) else None
  }

  lemma MintStores(env: Env, s: State, e: Step)
    requires BuildAuth(env.config, env.secret).Some? && e.Create? && Creates(env, s, e)
    ensures var t := Next(env, s, e);
            && t.table.Keys == s.table.Keys + {env.hash(e.raw)} && env.hash(e.raw) in t.minted
            && MintedBy(env, s, e, t.table[env.hash(e.raw)])
  {
    hide Caller;
  }

  lemma OnlyMintsAdd(env: Env, s: State, e: Step, h: string)
    requires BuildAuth(env.config, env.secret).Some? && e.Create? && h == env.hash(e.raw)
    requires h !in s.table && h in Next(env, s, e).table
    ensures Creates(env, s, e)
  {
    hide Caller;
  }

  // And whatever goes was revoked by the login that owned it; nobody else's step
  // ever removes it.
  lemma {:induction false} LostKeyWasRevoked(env: Env, s: State, steps: seq<Step>, h: string) returns (n: nat)
    requires GoodEnv(env) && Inv(s) && h in s.table && h !in Run(env, s, steps).table
    ensures n < |steps| && steps[n].Revoke?
    ensures var t := Run(env, s, steps[..n]); var c := Caller(env, t, steps[n].bearer);
            && h in t.table && MayManage(c) && steps[n].id == t.table[h].id
            && t.table[h].account == c.value.subject && t.table[h].issuer == c.value.issuer
  {
    hide Caller, Next;
    var before, last := steps[..|steps| - 1], steps[|steps| - 1];
    var t := Run(env, s, before);
    RunKeepsInv(env, s, before);
    if h in t.table {
      KeysChangeOnlyByOwner(env, t, last, h);
      n := |before|;
    } else {
      n := LostKeyWasRevoked(env, s, before, h);
      assert before[..n] == steps[..n];
    }
  }

  // Raw keys are fresh: no mint repeats the hash of an earlier one.
  predicate FreshMints(env: Env, s: State, steps: seq<Step>)
    requires BuildAuth(env.config, env.secret).Some?
  {
    steps == [] ||
    (FreshMints(env, s, steps[..|steps| - 1])
     && (steps[|steps| - 1].Create? ==>
           env.hash(steps[|steps| - 1].raw) !in Run(env, s, steps[..|steps| - 1]).minted))
  }

  predicate Expired(s: State, h: string)
  {
    h in s.table && s.table[h].expiresAt.Some? && s.now > s.table[h].expiresAt.value * SECOND
  }

  // A minted key that is revoked or past its second.
  predicate Dead(s: State, h: string) { h in s.minted && (h !in s.table || Expired(s, h)) }

  // Death is final: once revoked or expired, no later step authenticates with
  // the key, whatever else happens.
  lemma {:induction false} DeadForever(env: Env, s: State, steps: seq<Step>, raw: string)
    requires GoodEnv(env) && Inv(s) && Dead(s, env.hash(raw)) && FreshMints(env, s, steps)
    ensures Dead(Run(env, s, steps), env.hash(raw))
    ensures var t := Run(env, s, steps);
            AuthenticateKey(raw, World(env.verify, env.hash, t.table, t.now)) == Err(Unauthorized)
  {
    if steps != [] {
      var before := steps[..|steps| - 1];
      DeadForever(env, s, before, raw);
      RunKeepsInv(env, s, before);
    }
  }

  // A successful revoke kills the key at once.
  lemma RevokeKills(env: Env, s: State, e: Step, h: string)
    requires GoodEnv(env) && Inv(s) && h in s.table && e.Revoke? && e.id == s.table[h].id && e.id != ""
    requires MayManage(Caller(env, s, e.bearer))
    ensures Dead(Next(env, s, e), h)
       <==> (s.table[h].account == Caller(env, s, e.bearer).value.subject
             && s.table[h].issuer == Caller(env, s, e.bearer).value.issuer)
            || Expired(s, h)
  {
    assert Faithful(s, h);
  }

  // Whether the login that minted the key at step n revokes it later.
  ghost predicate RevokedSince(env: Env, steps: seq<Step>, n: nat)
    requires BuildAuth(env.config, env.secret).Some? && n < |steps| && steps[n].Create?
  {
    exists m :: n < m < |steps| && RevokesAt(env, steps, n, m)
  }

  predicate RevokesAt(env: Env, steps: seq<Step>, n: nat, m: nat)
    requires BuildAuth(env.config, env.secret).Some? && n < m < |steps| && steps[n].Create?
  {
    && steps[m].Revoke? && steps[m].id == steps[n].id && steps[n].id != ""
    && var minter := Caller(env, Run(env, EMPTY, steps[..n]), steps[n].bearer);
       var c := Caller(env, Run(env, EMPTY, steps[..m]), steps[m].bearer);
       MayManage(c) && minter.Ok? && c.value.subject == minter.value.subject && c.value.issuer == minter.value.issuer
  }

  lemma RevokedSinceSnoc(env: Env, steps: seq<Step>, n: nat)
    requires BuildAuth(env.config, env.secret).Some? && n + 1 < |steps| && steps[n].Create?
    ensures RevokedSince(env, steps, n)
       <==> RevokedSince(env, steps[..|steps| - 1], n) || RevokesAt(env, steps, n, |steps| - 1)
  {
    hide Caller, Run, MayManage;
    var before := steps[..|steps| - 1];
    assert before[..n] == steps[..n];
    forall m | n < m < |before| ensures RevokesAt(env, before, n, m) == RevokesAt(env, steps, n, m) {
      assert before[..m] == steps[..m];
    }
    if RevokedSince(env, before, n) {
      var m :| n < m < |before| && RevokesAt(env, before, n, m);
      assert RevokesAt(env, steps, n, m);
    }
  }

  // From its mint on, a key is stored as it was minted until its login revokes it.
  lemma {:induction false} MintedKeyFollows(env: Env, steps: seq<Step>, n: nat)
    requires GoodEnv(env) && n < |steps| && steps[n].Create?
    requires Creates(env, Run(env, EMPTY, steps[..n]), steps[n])
    requires FreshMints(env, EMPTY, steps)
    ensures var t, h := Run(env, EMPTY, steps), env.hash(steps[n].raw);
            && h in t.minted && (h in t.table <==> !RevokedSince(env, steps, n))
            && (h in t.table ==> MintedBy(env, Run(env, EMPTY, steps[..n]), steps[n], t.table[h]))
    decreases |steps|
  {
    hide Caller, Creates;
    var before, e := steps[..|steps| - 1], steps[|steps| - 1];
    var s, h := Run(env, EMPTY, before), env.hash(steps[n].raw);
    if n + 1 == |steps| {
      assert before == steps[..n];
      MintStores(env, s, e);
    } else {
      assert before[..n] == steps[..n];
      MintNeedsLogin(env, Run(env, EMPTY, steps[..n]), steps[n]);
      RevokedSinceSnoc(env, steps, n);
      MintedKeyFollows(env, before, n);
      OneStepLater(env, s, e, h);
    }
  }

  lemma MintNeedsLogin(env: Env, s: State, e: Step)
    requires BuildAuth(env.config, env.secret).Some? && e.Create? && Creates(env, s, e)
    ensures Caller(env, s, e.bearer).Ok?
  {
    hide Caller;
  }

  lemma OneStepLater(env: Env, s: State, e: Step, h: string)
    requires GoodEnv(env) && h in s.minted && (e.Create? ==> env.hash(e.raw) !in s.minted)
    ensures var t, c := Next(env, s, e), Caller(env, s, if e.Advance? then None else e.bearer);
            && h in t.minted && (h in t.table ==> h in s.table)
            && (h in s.table ==>
                  && (h !in t.table
                      <==> && e.Revoke? && e.id == s.table[h].id && e.id != "" && MayManage(c)
                           && c.value.subject == s.table[h].account && c.value.issuer == s.table[h].issuer)
                  && (h in t.table ==> t.table[h].(lastUsedAt := None) == s.table[h].(lastUsedAt := None)))
  {
    hide Caller;
  }

  // A bearer shaped like an API key, where API keys are enabled and it is not the
  // service key, is looked up in the key table.
  lemma PresentedKey(env: Env, s: State, raw: string)
    requires BuildAuth(env.config, env.secret).Some?
    requires env.config.apiKey && "depot_" <= raw && !(env.config.serviceKeyEnabled && raw == env.secret)
    ensures Caller(env, s, Some(raw)) == AuthenticateKey(raw, World(env.verify, env.hash, s.table, s.now))
  {
    hide AuthenticateKey;
    var w := World(env.verify, env.hash, s.table, s.now);
    var a := BuildAuth(env.config, env.secret).value;
    var oidc := if env.config.oidc then Some(OIDC(env.config.adminClaim, env.config.adminValues)) else None;
    var router := TokenRouter(oidc, Some(APIKey));
    assert Authenticate(router, Some(raw), w) == Authenticate(APIKey, Some(raw), w);
    assert Authenticate(a, Some(raw), w) == Authenticate(a.token.value, Some(raw), w);
  }

  // The whole life of a key, over every run: from its mint on it authenticates as
  // its minter until that login revokes it or the second that was asked for is
  // over; and then it is refused.
  lemma MintedKeyLivesExactly(env: Env, steps: seq<Step>, n: nat)
    requires GoodEnv(env) && n < |steps| && steps[n].Create?
    requires Creates(env, Run(env, EMPTY, steps[..n]), steps[n])
    requires FreshMints(env, EMPTY, steps)
    requires env.config.apiKey && "depot_" <= steps[n].raw
    requires !(env.config.serviceKeyEnabled && steps[n].raw == env.secret)
    ensures var t, x := Run(env, EMPTY, steps), steps[n].expires;
            var minter := Caller(env, Run(env, EMPTY, steps[..n]), steps[n].bearer).value;
            Caller(env, t, Some(steps[n].raw))
            == if RevokedSince(env, steps, n) || (x.Some? && t.now > x.value / 1_000_000_000 * 1_000_000_000)
               then Err(Unauthorized)
               else Ok(Identity(minter.subject, minter.issuer, MethodAPIKey, false, false))
  {
    MintedKeyFollows(env, steps, n);
    var t := Run(env, EMPTY, steps);
    PresentedKey(env, t, steps[n].raw);
    hide Caller, Run, Creates, RevokedSince, BuildAuth;
  }

  // ------------------------------------------------------------- the handlers

  datatype KeyResponse = Unauthenticated | Refused | BadRequest | Failed | NotFound | Done

  class KeyDesk {
    const env: Env
    var table: KeyTable
    var now: int
    ghost var minted: map<string, Minting>

    ghost predicate Valid()
      reads this
    {
      GoodEnv(env) && Inv(View())
    }

    ghost function View(): State
      reads this
    {
      State(table, now, minted)
    }

    constructor (env: Env)
      requires GoodEnv(env)
      ensures Valid() && View() == EMPTY && this.env == env
    {
      this.env := env;
      table, now, minted := map[], 0, map[];
    }

    // The INSERT: refused when the hash or the id is already there.
    method InsertKey(h: string, k: KeyRow) returns (ok: bool)
      modifies this`table
      ensures ok <==> h !in old(table) && !IdInUse(old(table), k.id)
      ensures table == if ok then old(table)[h := k] else old(table)
    {
      if h in table {
        return false;
      }
      var todo := table.Keys;
      while todo != {}
        invariant todo <= table.Keys
        invariant forall g :: g in table && g !in todo ==> table[g].id != k.id
        decreases todo
      {
        var g :| g in todo;
        if table[g].id == k.id {
          return false;
        }
        todo := todo - {g};
      }
      table := table[h := k];
      return true;
    }

    method HandleCreateKey(bearer: Option<string>, id: string, raw: string, keyLabel: string, expires: Option<int>)
      returns (r: KeyResponse)
      requires Valid()
      modifies this`table, this`minted
      ensures Valid()
      ensures View() == Next(env, old(View()), Create(bearer, id, raw, keyLabel, expires))
      ensures r == Done <==> Creates(env, old(View()), Create(bearer, id, raw, keyLabel, expires))
      ensures r == Unauthenticated <==> Caller(env, old(View()), bearer).Err?
      ensures var c := Caller(env, old(View()), bearer);
              r == Refused <==> c.Ok? && c.value.credential != MethodOIDC
      ensures r == BadRequest <==> MayManage(Caller(env, old(View()), bearer))
                                   && (keyLabel == "" || (expires.Some? && expires.value < old(now)))
      ensures r != NotFound
      ensures r == Done ==>
                && table.Keys == old(table).Keys + {env.hash(raw)}
                && (forall h :: h in old(table) ==> table[h] == old(table)[h])
                && var c := Caller(env, old(View()), bearer).value;
                   table[env.hash(raw)]
                   == KeyRow(id, c.subject, c.issuer, keyLabel,
                             if expires.Some? then Some(expires.value / 1_000_000_000) else None, None)
      ensures r != Done ==> table == old(table)
    {
      hide Authenticate, BuildAuth, Inv, IdInUse;
      StepKeepsInv(env, View(), Create(bearer, id, raw, keyLabel, expires));
      var c := Authenticate(BuildAuth(env.config, env.secret).value, bearer, World(env.verify, env.hash, table, now));
      if c.Err? {
        return Unauthenticated;
      }
      if c.value.credential != MethodOIDC {
        return Refused;
      }
      if keyLabel == "" {
        return BadRequest;
      }
      if expires.Some? && expires.value < now {
        return BadRequest;
      }
      var ok := InsertKey(env.hash(raw), Minted(id, c.value.subject, c.value.issuer, keyLabel, expires));
      if !ok {
        return Failed;
      }
      minted := minted[env.hash(raw) := Minting(c.value.subject, c.value.issuer, expires)];
      return Done;
    }

    // Authentication of any request; a key that authenticates is touched.
    method AuthenticateRequest(bearer: Option<string>) returns (r: Result<Identity, AuthError>)
      requires Valid()
      modifies this`table
      ensures Valid()
      ensures r == Caller(env, old(View()), bearer)
      ensures View() == Next(env, old(View()), Use(bearer))
      ensures table.Keys == old(table).Keys
      ensures forall h :: h in table ==>
                table[h] == if r.Ok? && r.value.credential == MethodAPIKey && h == env.hash(bearer.value)
                            then old(table)[h].(lastUsedAt := Some(old(now) / 1_000_000_000)) else old(table)[h]
    {
      StepKeepsInv(env, View(), Use(bearer));
      r := Authenticate(BuildAuth(env.config, env.secret).value, bearer, World(env.verify, env.hash, table, now));
      if r.Ok? && r.value.credential == MethodAPIKey && bearer.Some? && env.hash(bearer.value) in table {
        table := TouchedKey(table, table[env.hash(bearer.value)].id, now);
      }
    }

    method HandleRevokeKey(bearer: Option<string>, id: string) returns (r: KeyResponse)
      requires Valid()
      modifies this`table
      ensures Valid()
      ensures View() == Next(env, old(View()), Revoke(bearer, id))
      ensures r == Done <==> table != old(table)
      ensures var c := Caller(env, old(View()), bearer);
              forall h :: h in old(table) ==>
                (h !in table <==> MayManage(c) && id != "" && old(table)[h].id == id
                                  && old(table)[h].account == c.value.subject && old(table)[h].issuer == c.value.issuer)
      ensures table.Keys <= old(table).Keys && forall h :: h in table ==> table[h] == old(table)[h]
      ensures r == Unauthenticated <==> Caller(env, old(View()), bearer).Err?
      ensures var c := Caller(env, old(View()), bearer);
              r == Refused <==> c.Ok? && c.value.credential != MethodOIDC
      ensures r == BadRequest <==> MayManage(Caller(env, old(View()), bearer)) && id == ""
      ensures r != Failed
    {
      StepKeepsInv(env, View(), Revoke(bearer, id));
      var c := Authenticate(BuildAuth(env.config, env.secret).value, bearer, World(env.verify, env.hash, table, now));
      if c.Err? {
        return Unauthenticated;
      }
      if c.value.credential != MethodOIDC {
        return Refused;
      }
      if id == "" {
        return BadRequest;
      }
      var remaining := WithoutKey(table, id, c.value.subject, c.value.issuer);
      if remaining.Keys == table.Keys {
        assert remaining == table;
        return NotFound;
      }
      table := remaining;
      return Done;
    }
  }
}
