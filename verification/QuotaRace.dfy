/** How far concurrent requests can overshoot a quota. */
module QuotaRace {
  import opened Wrappers
  import opened Decimal
  import opened Sums
  import opened Places
  import opened ObjectKeys
  import opened Transfers
  import opened Gateway
  import opened Grants
  import Quotas
  import Store
  import Auth

  // A request of owner o between its passed check and its INSERT.
  predicate Holds(f: Flight, o: Owner)
  {
    (f.Checked? || f.Keyed? || f.Ready?) && !f.id.anonymous && OwnerId(f.id) == o
  }

  // The bytes it may still be charged for.
  function Reserve(f: Flight): int
  {
    match f
    case Checked(_, _, req, _) => req.size
    case Keyed(_, _, req, _) => req.size
    case Ready(_, _, row) => row.size
    case _ => 0
  }

  function Reserved(o: Owner): Flight -> int { f => if Holds(f, o) then Reserve(f) else 0 }

  function Holding(o: Owner): Flight -> int { f => if Holds(f, o) then 1 else 0 }

  ghost function Pending(s: State, o: Owner): int { Sum(s.flights, Reserved(o)) }

  ghost function InFlight(s: State, o: Owner): int { Sum(s.flights, Holding(o)) }

  ghost function Held(s: State, o: Owner): int { Store.Usage(s.rows, o) + Pending(s, o) }

  // Every request is charged to the one who makes it; o's are at most m bytes.
  predicate SaneFlight(f: Flight, o: Owner, m: int)
  {
    match f
    case Checked(id, _, req, _) => Auth.WellFormed(id) && 0 < req.size && (Holds(f, o) ==> req.size <= m)
    case Keyed(id, _, req, _) => Auth.WellFormed(id) && 0 < req.size && (Holds(f, o) ==> req.size <= m)
    case Ready(id, _, row) => Auth.WellFormed(id) && Store.OwnerOfRow(row) == OwnerId(id) && 0 <= row.size
        && (Holds(f, o) ==> row.size <= m)
    case _ => true
  }

  ghost predicate Sane(s: State, o: Owner, m: int)
  {
    && Store.NonNegative(s.rows)
    && forall rid :: rid in s.flights ==> SaneFlight(s.flights[rid], o, m)
  }

  // The setting of the bound: o has quota limit > 0.
  ghost predicate Setting(c: Config, o: Owner, limit: int, cap: int, k: nat)
  {
    && o.account != "" && o.issuer != "" && 0 < limit == Quotas.Limit(c.quota, o.account) <= MAX_INT64
    && cap > 0 && k >= 1
  }

  function Min(a: int, b: int): int { if a < b then a else b }

  function Bound(limit: int, cap: int, k: nat): int { limit + (k - 1) * Min(limit, cap) }

  // Steps carry identities as Auth resolves them; uploads are at most `cap`
  // bytes, because their place caps them or because they ask for no more.
  predicate Fitting(c: Config, e: Step, cap: int)
  {
    e.Begin? ==>
      Auth.WellFormed(e.id)
      && (e.req.size <= cap ||
          var p := Resolve(c.registry, e.placeName); p.Ok? ==> 0 < p.value.maxSize <= cap)
  }

  // A positive global cap makes every request fit: places take it over unless
  // they set their own.
  lemma ConfiguredCapsFit(c: Config, defs: map<string, Definition>, defaultName: string, globalMaxSize: int,
      cap: int, e: Step)
    requires IsRegistry(c.registry, defs, defaultName, globalMaxSize)
    requires 0 < globalMaxSize <= cap && forall n :: n in defs ==> 0 <= defs[n].maxSize <= cap
    requires e.Begin? ==> Auth.WellFormed(e.id)
    ensures Fitting(c, e, cap)
  {
    if e.Begin? && Resolve(c.registry, e.placeName).Ok? {
      var n := if e.placeName == "" then c.registry.defaultName else e.placeName;
      assert Build(n, defs[n], globalMaxSize) == Ok(c.registry.places[n]);
    }
  }

  lemma FlightsReplaced(s: State, t: State, rid: nat, o: Owner)
    requires rid in s.flights && rid in t.flights && t.flights == s.flights[rid := t.flights[rid]]
    ensures Pending(t, o) == Pending(s, o) - Reserved(o)(s.flights[rid]) + Reserved(o)(t.flights[rid])
    ensures InFlight(t, o) == InFlight(s, o) - Holding(o)(s.flights[rid]) + Holding(o)(t.flights[rid])
  {
    SumUpdate(s.flights, Reserved(o), rid, t.flights[rid]);
    SumUpdate(s.flights, Holding(o), rid, t.flights[rid]);
  }

  lemma FlightAdded(s: State, t: State, rid: nat, o: Owner)
    requires rid !in s.flights && rid in t.flights && t.flights == s.flights[rid := t.flights[rid]]
    ensures Pending(t, o) == Pending(s, o) + Reserved(o)(t.flights[rid])
    ensures InFlight(t, o) == InFlight(s, o) + Holding(o)(t.flights[rid])
  {
    SumInsert(s.flights, Reserved(o), rid, t.flights[rid]);
    SumInsert(s.flights, Holding(o), rid, t.flights[rid]);
  }

  lemma FlightDropped(s: State, t: State, rid: nat, o: Owner)
    requires t.flights == s.flights - {rid}
    ensures rid in s.flights ==> Pending(t, o) == Pending(s, o) - Reserved(o)(s.flights[rid])
    ensures rid !in s.flights ==> Pending(t, o) == Pending(s, o)
  {
    if rid in s.flights {
      SumRemove(s.flights, Reserved(o), rid);
    } else {
      assert s.flights - {rid} == s.flights;
    }
  }

  lemma RowsShrink(rows: Store.Rows, gone: set<string>, o: Owner)
    requires Store.NonNegative(rows)
    ensures Store.Usage(rows - gone, o) <= Store.Usage(rows, o)
    ensures Store.NonNegative(rows - gone)
  {
    SumMonotone(rows - gone, rows, Store.Only(Store.Size(), o), Store.Only(Store.Size(), o));
  }

  // The one step that adds to what o holds: a check that passes, reading usage
  // before the others are recorded. It keeps the bound while its sum fits in 64
  // bits.
  lemma BeginBounded(c: Config, s: State, e: Step, o: Owner, limit: int, cap: int, k: nat)
    requires e.Begin? && Fitting(c, e, cap) && Setting(c, o, limit, cap, k)
    requires Sane(s, o, Min(limit, cap)) && Held(s, o) <= Bound(limit, cap, k)
    requires InFlight(Next(c, s, e), o) <= k
    requires Next(c, s, e) != s && OwnerId(e.id) == o ==>
               e.req.size <= MAX_INT64 && Store.Usage(s.rows, o) + e.req.size <= MAX_INT64
    ensures Sane(Next(c, s, e), o, Min(limit, cap))
    ensures Held(Next(c, s, e), o) <= Bound(limit, cap, k)
  {
    var t, m := Next(c, s, e), Min(limit, cap);
    if t != s {
      var f := t.flights[e.rid];
      FlightAdded(s, t, e.rid, o);
      if Holds(f, o) {
        var used := Store.Usage(s.rows, o);
        PendingCovered(s, o, m);
        PendingNonNegative(s, o, m);
        Store.UsageNonNegative(s.rows, o);
        Quotas.CheckExactly(c.quota, o.account, used, e.req.size);
        Scale(m, InFlight(s, o), k - 1);
      }
    }
  }

  lemma Scale(m: int, a: int, b: int)
    requires m >= 0 && a <= b
    ensures m * a <= b * m
  {
  }

  lemma PendingCovered(s: State, o: Owner, m: int)
    requires Sane(s, o, m)
    ensures Pending(s, o) <= m * InFlight(s, o)
  {
    forall rid | rid in s.flights ensures Reserved(o)(s.flights[rid]) <= m * Holding(o)(s.flights[rid]) {
      assert SaneFlight(s.flights[rid], o, m);
    }
    SumBounded(s.flights, Reserved(o), Holding(o), m);
  }

  // A request that advances or ends without touching rows.
  lemma FlightStep(s: State, t: State, rid: nat, o: Owner, m: int)
    requires Sane(s, o, m) && t.rows == s.rows
    requires t.flights == s.flights - {rid} ||
             (rid in s.flights && rid in t.flights && t.flights == s.flights[rid := t.flights[rid]]
              && SaneFlight(t.flights[rid], o, m) && Reserved(o)(t.flights[rid]) <= Reserved(o)(s.flights[rid]))
    ensures Sane(t, o, m) && Held(t, o) <= Held(s, o)
  {
    if t.flights == s.flights - {rid} {
      FlightDropped(s, t, rid, o);
      if rid in s.flights { assert SaneFlight(s.flights[rid], o, m); }
    } else {
      FlightsReplaced(s, t, rid, o);
    }
  }

  lemma RecordMoves(s: State, e: Step, o: Owner, m: int)
    requires e.Record? && o.account != "" && Sane(s, o, m)
    ensures var t := DoRecord(s, e); Sane(t, o, m) && Held(t, o) <= Held(s, o)
    ensures e.rid in s.flights && s.flights[e.rid].Ready? && s.flights[e.rid].key !in s.rows ==>
              Held(DoRecord(s, e), o) == Held(s, o)
  {
    var t := DoRecord(s, e);
    if t != s {
      var f := s.flights[e.rid];
      assert SaneFlight(f, o, m);
      FlightDropped(s, t, e.rid, o);
      if f.key !in s.rows {
        SumInsert(s.rows, Store.Only(Store.Size(), o), f.key, f.row);
      }
    }
  }

  lemma DeriveNeverAdds(c: Config, s: State, e: Step, o: Owner, m: int)
    requires e.Derive? && Sane(s, o, m)
    ensures Sane(DoDerive(c, s, e), o, m) && Held(DoDerive(c, s, e), o) <= Held(s, o)
  {
    hide DeriveKey, IsDumpKey, UniqueOf;
    var t := DoDerive(c, s, e);
    if t != s {
      assert SaneFlight(s.flights[e.rid], o, m);
      FlightStep(s, t, e.rid, o, m);
    }
  }

  lemma SignNeverAdds(s: State, e: Step, o: Owner, m: int)
    requires e.Sign? && Sane(s, o, m)
    ensures Sane(DoSign(s, e), o, m) && Held(DoSign(s, e), o) <= Held(s, o)
  {
    hide ValidKey;
    var t := DoSign(s, e);
    if t != s {
      assert SaneFlight(s.flights[e.rid], o, m);
      FlightStep(s, t, e.rid, o, m);
    }
  }

  // A one-shot upload is charged what was written, at most what was checked.
  lemma WriteNeverAdds(s: State, e: Step, o: Owner, m: int)
    requires e.Write? && Sane(s, o, m)
    ensures Sane(DoWrite(s, e), o, m) && Held(DoWrite(s, e), o) <= Held(s, o)
  {
    hide ValidKey;
    var t := DoWrite(s, e);
    if t != s {
      var f := s.flights[e.rid];
      assert SaneFlight(f, o, m);
      var r := Outcome(f.req.size, e.body);
      assert r.Ok? ==> 0 <= |r.value| <= f.req.size;
      FlightStep(s, t, e.rid, o, m);
    }
  }

  lemma PutNeverAdds(s: State, e: Step, o: Owner, m: int)
    requires Sane(s, o, m)
    ensures e.PutBegin? ==> Sane(DoPutBegin(s, e), o, m) && Held(DoPutBegin(s, e), o) <= Held(s, o)
    ensures e.PutCommit? ==> Sane(DoPutCommit(s, e), o, m) && Held(DoPutCommit(s, e), o) <= Held(s, o)
  {
    hide Outcome, FileOf, Capabilities.AdmitPut, Capabilities.Canonical, Store.Usage;
    if e.PutBegin? && DoPutBegin(s, e) != s { FlightAdded(s, DoPutBegin(s, e), e.rid, o); }
    if e.PutCommit? && DoPutCommit(s, e) != s { FlightDropped(s, DoPutCommit(s, e), e.rid, o); }
  }

  // A delete or a wipe: rows go, a request that will remove objects starts.
  lemma RemovalNeverAdds(s: State, t: State, rid: nat, gone: set<string>, o: Owner, m: int)
    requires Sane(s, o, m) && rid !in s.flights && rid in t.flights && t.flights[rid].Removing?
    requires t.rows == s.rows - gone && t.flights == s.flights[rid := t.flights[rid]]
    ensures Sane(t, o, m) && Held(t, o) <= Held(s, o)
  {
    FlightAdded(s, t, rid, o);
    RowsShrink(s.rows, gone, o);
  }

  lemma WipeNeverAdds(s: State, rid: nat, account: string, issuer: string, order: seq<string>, o: Owner,
      m: int)
    requires Sane(s, o, m)
    ensures var t := DoWipe(s, rid, account, issuer, order); Sane(t, o, m) && Held(t, o) <= Held(s, o)
  {
    var t := DoWipe(s, rid, account, issuer, order);
    if t != s { RemovalNeverAdds(s, t, rid, Store.Wiped(s.rows, account, issuer), o, m); }
  }

  // Every other step keeps or lowers what o holds: an INSERT moves bytes from
  // pending to recorded, a failed one, a delete, a wipe or an abort lets go.
  lemma OthersNeverAdd(c: Config, s: State, e: Step, o: Owner, m: int)
    requires !e.Begin? && o.account != "" && Sane(s, o, m)
    ensures Sane(Next(c, s, e), o, m)
    ensures Held(Next(c, s, e), o) <= Held(s, o)
  {
    hide DoDerive, DoSign, DoWrite, DoPutBegin, DoPutCommit, DoWipe;
    match e
    case Derive(_, _, _) => DeriveNeverAdds(c, s, e, o, m);
    case Sign(_) => SignNeverAdds(s, e, o, m);
    case Write(_, _) => WriteNeverAdds(s, e, o, m);
    case Record(_) => RecordMoves(s, e, o, m);
    case PutBegin(_, _, _, _, _) => PutNeverAdds(s, e, o, m);
    case PutCommit(_, _) => PutNeverAdds(s, e, o, m);
    case DeleteRow(rid, _, key) =>
      if DoDeleteRow(s, e) != s { RemovalNeverAdds(s, DoDeleteRow(s, e), rid, {key}, o, m); }
    case WipeOwn(rid, id, order) => WipeNeverAdds(s, rid, id.subject, id.issuer, order, o, m);
    case WipeAny(rid, id, account, issuer, order) => WipeNeverAdds(s, rid, account, issuer, order, o, m);
    case RemoveObject(rid, _) => if DoRemoveObject(s, e) != s { FlightStep(s, DoRemoveObject(s, e), rid, o, m); }
    case Abort(rid) => FlightStep(s, Drop(s, rid), rid, o, m);
    case Advance(_) =>
  }

  // Prefixes of a run in which o never has more than k requests between check
  // and INSERT.
  ghost predicate AtMost(c: Config, s: State, steps: seq<Step>, o: Owner, k: nat)
  {
    forall n :: 0 <= n <= |steps| ==> InFlight(Run(c, s, steps[..n]), o) <= k
  }

  // A check that passes adds at most cap bytes.
  lemma SumFits(c: Config, s: State, e: Step, o: Owner, limit: int, cap: int, k: nat)
    requires e.Begin? && Fitting(c, e, cap) && Setting(c, o, limit, cap, k) && Bound(limit, cap, k) + cap <= MAX_INT64
    requires Sane(s, o, Min(limit, cap)) && Held(s, o) <= Bound(limit, cap, k)
    ensures Next(c, s, e) != s && OwnerId(e.id) == o ==>
               e.req.size <= MAX_INT64 && Store.Usage(s.rows, o) + e.req.size <= MAX_INT64
  {
    hide Store.Usage;
    PendingNonNegative(s, o, Min(limit, cap));
    BoundShape(limit, cap, k);
    Dispatch(c, s, e);
    hide Next, Pending;
  }

  lemma StepBounded(c: Config, s: State, e: Step, o: Owner, limit: int, cap: int, k: nat)
    requires Fitting(c, e, cap) && Setting(c, o, limit, cap, k) && Bound(limit, cap, k) + cap <= MAX_INT64
    requires Sane(s, o, Min(limit, cap)) && Held(s, o) <= Bound(limit, cap, k)
    requires InFlight(Next(c, s, e), o) <= k
    ensures Sane(Next(c, s, e), o, Min(limit, cap))
    ensures Held(Next(c, s, e), o) <= Bound(limit, cap, k)
  {
    if e.Begin? {
      SumFits(c, s, e, o, limit, cap, k);
      BeginBounded(c, s, e, o, limit, cap, k);
    } else {
      OthersNeverAdd(c, s, e, o, Min(limit, cap));
    }
  }

  lemma {:induction false} RunBounded(c: Config, s: State, steps: seq<Step>, o: Owner, limit: int, cap: int, k: nat)
    requires Setting(c, o, limit, cap, k) && Bound(limit, cap, k) + cap <= MAX_INT64
    requires Sane(s, o, Min(limit, cap)) && Held(s, o) <= Bound(limit, cap, k)
    requires forall i :: 0 <= i < |steps| ==> Fitting(c, steps[i], cap)
    requires AtMost(c, s, steps, o, k)
    ensures Sane(Run(c, s, steps), o, Min(limit, cap))
    ensures Held(Run(c, s, steps), o) <= Bound(limit, cap, k)
    decreases |steps|
  {
    hide Next;
    if steps != [] {
      var before, e := steps[..|steps| - 1], steps[|steps| - 1];
      forall n | 0 <= n <= |before| ensures InFlight(Run(c, s, before[..n]), o) <= k {
        assert before[..n] == steps[..n];
      }
      RunBounded(c, s, before, o, limit, cap, k);
      assert steps[..|steps|] == steps;
      StepBounded(c, Run(c, s, before), e, o, limit, cap, k);
    }
  }

  // The race, quantified: start within the quota with nothing in flight; if at
  // most k requests of o are ever simultaneously between check and INSERT, then
  // recorded plus pending bytes never exceed limit + (k-1)*min(limit, cap), and
  // recorded bytes alone never exceed the limit when k is 1.
  lemma {:induction false} QuotaRaceBounded(c: Config, s: State, steps: seq<Step>, o: Owner,
                                                 limit: int, cap: int, k: nat)
    requires Setting(c, o, limit, cap, k) && Bound(limit, cap, k) + cap <= MAX_INT64
    requires Sane(s, o, Min(limit, cap)) && Pending(s, o) == 0 && Store.Usage(s.rows, o) <= limit
    requires forall i :: 0 <= i < |steps| ==> Fitting(c, steps[i], cap)
    requires AtMost(c, s, steps, o, k)
    ensures Held(Run(c, s, steps), o) <= Bound(limit, cap, k)
    ensures k == 1 ==> Store.Usage(Run(c, s, steps).rows, o) <= limit
  {
    BoundShape(limit, cap, k);
    RunBounded(c, s, steps, o, limit, cap, k);
    PendingNonNegative(Run(c, s, steps), o, Min(limit, cap));
  }

  lemma BoundShape(limit: int, cap: int, k: nat)
    requires limit > 0 && cap > 0 && k >= 1
    ensures Bound(limit, cap, k) >= limit && Bound(limit, cap, 1) == limit
  {
    Scale(Min(limit, cap), 0, k - 1);
  }

  lemma PendingNonNegative(s: State, o: Owner, m: int)
    requires Sane(s, o, m)
    ensures Pending(s, o) >= 0
  {
    forall rid | rid in s.flights ensures Reserved(o)(s.flights[rid]) >= 0 {
      assert SaneFlight(s.flights[rid], o, m);
    }
    SumNonNegative(s.flights, Reserved(o));
  }
}
