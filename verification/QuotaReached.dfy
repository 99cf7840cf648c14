/** The overshoot bound of QuotaRace is exact: for every quota, size cap and
    degree of concurrency a run of the empty gateway records exactly that many
    bytes; and it holds of all runs only if one more upload fits in 64 bits. */
module QuotaReached {
  import opened Wrappers
  import opened Decimal
  import opened Sums
  import opened Text
  import opened Paths
  import opened Timestamps
  import opened Places
  import opened ObjectKeys
  import opened Transfers
  import opened Gateway
  import opened Grants
  import opened Scripts
  import opened QuotaRace
  import Capabilities
  import Quotas
  import Store

  const USER_OWNER := Store.Owner("u", "i")
  const RANDOM: Option<Bytes> := Some([0, 0, 0, 0, 0, 0])

  const DIGEST: Digest := _ => [0, 0, 0, 0, 0, 0, 0, 0]

  function OnePlace(cap: int): Place { Place("p", "p", STRATEGY_DUMP, cap, [], false) }

  function OneConfig(limit: int, cap: int): Config
  {
    Config(Registry(map["p" := OnePlace(cap)], "p"), Quotas.Policy(limit, map[]), DIGEST)
  }

  function Stamp0(i: nat): Stamp { Stamp(i, 1, 1, 0, 0, 0, 0) }

  function Ask(size: int): Request { Request("f", size, "") }

  // Uploads are told apart by their years alone.
  function Deriving(cap: int, size: int, i: nat): Derivation
  {
    DerivationOf(OnePlace(cap), USER, Ask(size), Stamp0(i), RANDOM)
  }

  // The key of the i-th upload, whatever its size.
  function KeyAt(cap: int, i: nat): string
  {
    var key := DeriveKey(Deriving(cap, 1, i), DIGEST);
    if key.Ok? then key.value else ""
  }

  lemma KeyValid(cap: int, size: int, i: nat)
    ensures DeriveKey(Deriving(cap, size, i), DIGEST) == Ok(KeyAt(cap, i))
    ensures ValidKey(KeyAt(cap, i))
  {
    hide PathJoin, UniqueSegment, Sanitize;
    SplitSingle("p", '/');
    FoldPlain(false, [], ["p"]);
    assert CleanSegs("p") == ["p"];
    DerivedKeyValidExactly(Deriving(cap, size, i), DIGEST);
  }

  lemma SegmentTellsYear(i: nat, j: nat, r: Bytes)
    requires UniqueSegment(Stamp0(i), r) == UniqueSegment(Stamp0(j), r)
    ensures i == j
  {
    hide Pad, Hex;
    var rest := Pad(1, 2) + (Pad(1, 2) + ("T" + (Pad(0, 2) + (Pad(0, 2) + (Pad(0, 2) + ("." + Pad(0, 3)))))));
    assert FormatStamp(Stamp0(i)) == Pad(i, 4) + rest && FormatStamp(Stamp0(j)) == Pad(j, 4) + rest;
    SameFront(Pad(i, 4), Pad(j, 4), rest, Hex(r));
    PadInjective(i, j, 4);
  }

  lemma SameFront(a: string, b: string, rest: string, hex: string)
    requires a + rest + "-" + hex == b + rest + "-" + hex
    ensures a == b
  {
    assert |a| == |b|;
    assert (a + rest + "-" + hex)[..|a|] == a && (b + rest + "-" + hex)[..|b|] == b;
  }

  lemma KeysApart(cap: int, i: nat, j: nat)
    requires i != j
    ensures KeyAt(cap, i) != KeyAt(cap, j)
  {
    KeyValid(cap, 1, i);
    KeyValid(cap, 1, j);
    hide DeriveKey;
    DerivedKeysEqualExactly(Deriving(cap, 1, i), Deriving(cap, 1, j), DIGEST);
    if UniqueSegment(Stamp0(i), RANDOM.value) == UniqueSegment(Stamp0(j), RANDOM.value) {
      SegmentTellsYear(i, j, RANDOM.value);
    }
  }

  // ------------------------------------------------------- rows so far

  // Nothing but the first n uploads.
  ghost predicate RowsKnown(cap: int, n: nat, rows: Store.Rows)
  {
    forall key :: key in rows ==> exists i: nat :: i < n && key == KeyAt(cap, i)
  }

  lemma NextKeyUnused(cap: int, n: nat, rows: Store.Rows)
    requires RowsKnown(cap, n, rows)
    ensures KeyAt(cap, n) !in rows
  {
    forall i: nat | i < n ensures KeyAt(cap, i) != KeyAt(cap, n) { KeysApart(cap, i, n); }
  }

  lemma RowsKnownGrow(cap: int, n: nat, rows: Store.Rows, next: Store.Rows)
    requires RowsKnown(cap, n, rows) && next.Keys == rows.Keys + {KeyAt(cap, n)}
    ensures RowsKnown(cap, n + 1, next)
  {
    hide KeyAt;
    forall key | key in next ensures exists i: nat :: i < n + 1 && key == KeyAt(cap, i) {
      if key in rows {
        var i: nat :| i < n && key == KeyAt(cap, i);
      }
    }
  }

  lemma OneMoreRow(rows: Store.Rows, key: string, row: Store.Upload, size: int)
    requires key !in rows && row.size == size && Store.OwnerOfRow(row) == USER_OWNER
    ensures Store.Usage(rows[key := row], USER_OWNER) == Store.Usage(rows, USER_OWNER) + size
  {
    SumInsert(rows, Store.Only(Store.Size(), USER_OWNER), key, row);
  }

  // ------------------------------------------------------- one upload's steps

  function Begun(cap: int, size: int): Flight { Checked(USER, OnePlace(cap), Ask(size), false) }

  function BeginAt(size: int, rid: nat): Step { Begin(rid, USER, "p", Ask(size), false) }

  function Finish(rid: nat, i: nat): seq<Step> { [Derive(rid, Stamp0(i), RANDOM), Sign(rid), Record(rid)] }

  lemma Admitted(limit: int, cap: int, rows: Store.Rows, size: int)
    requires 0 < limit <= MAX_INT64 && 0 < size <= cap && 0 <= Store.Usage(rows, USER_OWNER)
    requires Store.Usage(rows, USER_OWNER) + size <= limit
    ensures Admits(OneConfig(limit, cap), rows, USER, "p", Ask(size), false)
  {
    hide Store.Usage;
  }

  lemma BegunAt(limit: int, cap: int, s: State, size: int, rid: nat)
    requires Admits(OneConfig(limit, cap), s.rows, USER, "p", Ask(size), false) && rid !in s.flights
    ensures Next(OneConfig(limit, cap), s, BeginAt(size, rid)) == s.(flights := s.flights[rid := Begun(cap, size)])
  {
    hide Next, Admits;
    Dispatch(OneConfig(limit, cap), s, BeginAt(size, rid));
  }

  // A checked request becomes one more row.
  lemma FinishRun(limit: int, cap: int, size: int, t: State, rid: nat, i: nat)
    requires rid in t.flights && t.flights[rid] == Begun(cap, size)
    ensures var t' := Run(OneConfig(limit, cap), t, Finish(rid, i));
            && t'.flights == t.flights - {rid}
            && t'.rows == Inserted(t.rows, KeyAt(cap, i), Row(USER, size, Ask(size), Capabilities.Unix(t.now)))
  {
    var c, key := OneConfig(limit, cap), KeyAt(cap, i);
    KeyValid(cap, size, i);
    hide DeriveKey, KeyAt, ValidKey, Next, Run, WithDraw, Inserted;
    var a := Derive(rid, Stamp0(i), RANDOM);
    RunOfThree(c, t, a, Sign(rid), Record(rid));
    Dispatch(c, t, a);
    var s := Drawing(t.(flights := t.flights - {rid}), key, Ask(size));
    assert s.flights[rid := Keyed(USER, key, Ask(size), false)] == t.flights[rid := Keyed(USER, key, Ask(size), false)];
    assert DoDerive(c, t, a) == InHand(s, rid, USER, key, Ask(size), false);
    SignThenRecord(c, s, rid, USER, key, Ask(size));
  }

  lemma FinishOne(limit: int, cap: int, size: int, t: State, rid: nat, i: nat)
    requires rid in t.flights && t.flights[rid] == Begun(cap, size) && RowsKnown(cap, i, t.rows)
    ensures var t' := Run(OneConfig(limit, cap), t, Finish(rid, i));
            && t'.flights == t.flights - {rid} && RowsKnown(cap, i + 1, t'.rows)
            && Store.Usage(t'.rows, USER_OWNER) == Store.Usage(t.rows, USER_OWNER) + size
  {
    hide KeyAt, Run, Finish, Store.Usage, RowsKnown, OneConfig, Begun, Waiting;
    FinishRun(limit, cap, size, t, rid, i);
    NextKeyUnused(cap, i, t.rows);
    var row := Row(USER, size, Ask(size), Capabilities.Unix(t.now));
    OneMoreRow(t.rows, KeyAt(cap, i), row, size);
    RowsKnownGrow(cap, i, t.rows, t.rows[KeyAt(cap, i) := row]);
  }

  // --------------------------------------------- filling up, one at a time

  function Fill(i: nat): seq<Step> { [BeginAt(1, 0)] + Finish(0, i) }

  function Fills(n: nat): seq<Step> { if n == 0 then [] else Fills(n - 1) + Fill(n - 1) }

  // n bytes recorded, by n uploads, and nothing in flight.
  ghost predicate Filled(cap: int, n: nat, t: State)
  {
    t.flights == map[] && RowsKnown(cap, n, t.rows) && Store.Usage(t.rows, USER_OWNER) == n
  }

  lemma FillOne(limit: int, cap: int, n: nat, t: State)
    requires Filled(cap, n, t) && n < limit <= MAX_INT64 && cap > 0
    ensures Filled(cap, n + 1, Run(OneConfig(limit, cap), t, Fill(n)))
  {
    hide Run, Admits, RowsKnown, Store.Usage, Finish, OneConfig, Begun;
    Admitted(limit, cap, t.rows, 1);
    FillBegun(limit, cap, n, t);
    FinishOne(limit, cap, 1, t.(flights := t.flights[0 := Begun(cap, 1)]), 0, n);
  }

  lemma FillBegun(limit: int, cap: int, n: nat, t: State)
    requires t.flights == map[] && Admits(OneConfig(limit, cap), t.rows, USER, "p", Ask(1), false)
    ensures Run(OneConfig(limit, cap), t, Fill(n))
            == Run(OneConfig(limit, cap), t.(flights := t.flights[0 := Begun(cap, 1)]), Finish(0, n))
  {
    var c := OneConfig(limit, cap);
    hide Next, Run, Admits, Finish, OneConfig, Begun;
    BegunAt(limit, cap, t, 1, 0);
    RunConcat(c, t, [BeginAt(1, 0)], Finish(0, n));
    RunSnoc(c, t, [], BeginAt(1, 0));
    assert [] + [BeginAt(1, 0)] == [BeginAt(1, 0)];
  }

  lemma NothingFilled(cap: int)
    ensures Filled(cap, 0, EMPTY)
  {
    SumEmpty<string, Store.Upload>(Store.Only(Store.Size(), USER_OWNER));
  }

  lemma {:induction false} AfterFills(limit: int, cap: int, n: nat)
    requires n <= limit <= MAX_INT64 && cap > 0
    ensures Filled(cap, n, Run(OneConfig(limit, cap), EMPTY, Fills(n)))
    decreases n
  {
    var c := OneConfig(limit, cap);
    hide Next, Fill, Filled, OneConfig;
    if n == 0 {
      NothingFilled(cap);
    } else {
      AfterFills(limit, cap, n - 1);
      RunConcat(c, EMPTY, Fills(n - 1), Fill(n - 1));
      FillOne(limit, cap, n - 1, Run(c, EMPTY, Fills(n - 1)));
    }
  }

  // ------------------------------------------------------------- the race

  function Begins(m: int, k: nat): seq<Step>
  {
    if k == 0 then [] else Begins(m, k - 1) + [BeginAt(m, k - 1)]
  }

  function Waiting(cap: int, m: int, from: nat, to: nat): (w: map<nat, Flight>)
    ensures forall i :: i in w <==> from <= i < to
    ensures forall i :: i in w ==> w[i] == Begun(cap, m)
  {
    if from >= to then map[] else Waiting(cap, m, from, to - 1)[to - 1 := Begun(cap, m)]
  }

  // Each check reads the usage before any of the others is recorded.
  lemma {:induction false} AfterBegins(limit: int, cap: int, k: nat, s: State)
    requires s.flights == map[] && Admits(OneConfig(limit, cap), s.rows, USER, "p", Ask(Min(limit, cap)), false)
    ensures var m := Min(limit, cap);
            Run(OneConfig(limit, cap), s, Begins(m, k)) == s.(flights := Waiting(cap, m, 0, k))
    decreases k
  {
    var c, m := OneConfig(limit, cap), Min(limit, cap);
    hide Next, Run, Admits, OneConfig, Begun, Min;
    if k == 0 {
      RunSnoc(c, s, [], Advance(0));
    } else {
      AfterBegins(limit, cap, k - 1, s);
      var t := Run(c, s, Begins(m, k - 1));
      RunSnoc(c, s, Begins(m, k - 1), BeginAt(m, k - 1));
      BegunAt(limit, cap, t, m, k - 1);
      assert Waiting(cap, m, 0, k - 1)[k - 1 := Begun(cap, m)] == Waiting(cap, m, 0, k);
    }
  }

  function Finishes(base: nat, n: nat): seq<Step>
  {
    if n == 0 then [] else Finishes(base, n - 1) + Finish(n - 1, base + (n - 1))
  }

  // After n of the k that passed are recorded.
  ghost predicate Recorded(limit: int, cap: int, k: nat, n: nat, t: State)
    requires 0 < limit && 0 < cap && n <= k
  {
    var m := Min(limit, cap);
    && t.flights == Waiting(cap, m, n, k)
    && Store.Usage(t.rows, USER_OWNER) == limit - m + n * m
    && RowsKnown(cap, limit - m + n, t.rows)
  }

  lemma {:induction false} AfterFinishes(limit: int, cap: int, k: nat, n: nat, s: State)
    requires limit > 0 && cap > 0 && n <= k && Recorded(limit, cap, k, 0, s)
    ensures Recorded(limit, cap, k, n, Run(OneConfig(limit, cap), s, Finishes(limit - Min(limit, cap), n)))
    decreases n
  {
    var base := limit - Min(limit, cap);
    hide Next, Recorded, Finish;
    if n > 0 {
      AfterFinishes(limit, cap, k, n - 1, s);
      RunConcat(OneConfig(limit, cap), s, Finishes(base, n - 1), Finish(n - 1, base + (n - 1)));
      OneMoreRecorded(limit, cap, k, n - 1, Run(OneConfig(limit, cap), s, Finishes(base, n - 1)));
    }
  }

  lemma OneMoreRecorded(limit: int, cap: int, k: nat, n: nat, t: State)
    requires limit > 0 && cap > 0 && n < k && Recorded(limit, cap, k, n, t)
    ensures Recorded(limit, cap, k, n + 1, Run(OneConfig(limit, cap), t, Finish(n, limit - Min(limit, cap) + n)))
  {
    hide Next, Run, Finish, KeyAt, Store.Usage, RowsKnown;
    var m := Min(limit, cap);
    FinishOne(limit, cap, m, t, n, limit - m + n);
    assert Waiting(cap, m, n, k) - {n} == Waiting(cap, m, n + 1, k);
    Successor(n, m);
  }

  lemma Successor(n: int, m: int)
    ensures (n + 1) * m == n * m + m
  {
  }

  // ------------------------------------------- at most k requests at a time

  predicate RaceStep(e: Step, k: nat) { (e.Begin? || e.Derive? || e.Sign? || e.Record?) && e.rid < k }

  lemma RidsStay(c: Config, s: State, e: Step, k: nat)
    requires RaceStep(e, k) && forall r :: r in s.flights ==> r < k
    ensures forall r :: r in Next(c, s, e).flights ==> r < k
  {
    hide DeriveKey, Admits, ValidKey, WithDraw;
  }

  lemma {:induction false} FewInFlight(c: Config, s: State, steps: seq<Step>, k: nat, o: Owner)
    requires s.flights == map[]
    requires forall i :: 0 <= i < |steps| ==> RaceStep(steps[i], k)
    ensures forall r :: r in Run(c, s, steps).flights ==> r < k
    ensures InFlight(Run(c, s, steps), o) <= k
    decreases |steps|
  {
    hide Next;
    if steps != [] {
      FewInFlight(c, s, steps[..|steps| - 1], k, o);
      RidsStay(c, Run(c, s, steps[..|steps| - 1]), steps[|steps| - 1], k);
    }
    CountBelow(Run(c, s, steps).flights, Holding(o), k);
  }

  lemma {:induction false} CountBelow(m: map<nat, Flight>, w: Flight -> int, k: nat)
    requires forall r :: r in m ==> r < k
    requires forall f :: w(f) <= 1
    ensures Sum(m, w) <= k
    decreases k
  {
    if k == 0 {
      assert m == map[];
    } else if k - 1 in m {
      var top: nat := k - 1;
      SumRemove(m, w, top);
      CountBelow(m - {top}, w, top);
    } else {
      CountBelow(m, w, k - 1);
    }
  }

  // A step of k requests that each ask for at most cap bytes.
  predicate Small(e: Step, k: nat, cap: int) { RaceStep(e, k) && (e.Begin? ==> e.id == USER && e.req.size <= cap) }

  lemma {:induction false} FillsSmall(n: nat, k: nat, cap: int)
    requires k >= 1 && cap >= 1
    ensures forall e :: e in Fills(n) ==> Small(e, k, cap)
    decreases n
  {
    if n > 0 { FillsSmall(n - 1, k, cap); }
  }

  lemma {:induction false} RaceSmall(m: int, k: nat, n: nat, base: nat, cap: int)
    requires n <= k && m <= cap
    ensures forall e :: e in Begins(m, n) ==> Small(e, k, cap)
    ensures forall e :: e in Finishes(base, n) ==> Small(e, k, cap)
    decreases n
  {
    if n > 0 { RaceSmall(m, k, n - 1, base, cap); }
  }

  lemma SmallRun(limit: int, cap: int, k: nat, steps: seq<Step>)
    requires forall e :: e in steps ==> Small(e, k, cap)
    ensures AtMost(OneConfig(limit, cap), EMPTY, steps, USER_OWNER, k)
    ensures forall i :: 0 <= i < |steps| ==> Fitting(OneConfig(limit, cap), steps[i], cap)
  {
    var c := OneConfig(limit, cap);
    forall n | 0 <= n <= |steps| ensures InFlight(Run(c, EMPTY, steps[..n]), USER_OWNER) <= k {
      assert forall i :: 0 <= i < n ==> steps[..n][i] in steps;
      FewInFlight(c, EMPTY, steps[..n], k, USER_OWNER);
    }
    assert forall i :: 0 <= i < |steps| ==> steps[i] in steps;
  }

  // Fill up to limit - min(limit, cap), then race k uploads of min(limit, cap).
  function Race(limit: int, cap: int, k: nat): seq<Step>
    requires limit > 0 && cap > 0
  {
    var m := Min(limit, cap);
    Fills(limit - m) + (Begins(m, k) + Finishes(limit - m, k))
  }

  lemma RaceIsSmall(limit: int, cap: int, k: nat)
    requires limit > 0 && cap > 0 && k >= 1
    ensures forall e :: e in Race(limit, cap, k) ==> Small(e, k, cap)
  {
    hide Small;
    var m := Min(limit, cap);
    FillsSmall(limit - m, k, cap);
    RaceSmall(m, k, k, limit - m, cap);
  }

  lemma RaceEnds(limit: int, cap: int, k: nat)
    requires limit > 0 && cap > 0 && k >= 1 && Bound(limit, cap, k) <= MAX_INT64
    ensures var t := Run(OneConfig(limit, cap), EMPTY, Race(limit, cap, k));
            t.flights == map[] && Store.Usage(t.rows, USER_OWNER) == Bound(limit, cap, k)
  {
    hide Next, Run, RowsKnown, Store.Usage;
    var c, m := OneConfig(limit, cap), Min(limit, cap);
    BoundShape(limit, cap, k);
    AfterFills(limit, cap, limit - m);
    var s := Run(c, EMPTY, Fills(limit - m));
    Admitted(limit, cap, s.rows, m);
    AfterBegins(limit, cap, k, s);
    var t := Run(c, s, Begins(m, k));
    assert Recorded(limit, cap, k, 0, t);
    AfterFinishes(limit, cap, k, k, t);
    RunConcat(c, s, Begins(m, k), Finishes(limit - m, k));
    RunConcat(c, EMPTY, Fills(limit - m), Begins(m, k) + Finishes(limit - m, k));
    assert limit - m + k * m == limit + (k - 1) * m;
  }

  // The bound is reached: this run of the empty gateway never has more than k
  // requests between check and INSERT, and ends with limit + (k-1)*min(limit,
  // cap) bytes recorded for its one owner.
  lemma BoundReached(limit: int, cap: int, k: nat)
    requires limit > 0 && cap > 0 && k >= 1 && Bound(limit, cap, k) <= MAX_INT64
    ensures var c, steps := OneConfig(limit, cap), Race(limit, cap, k);
            && limit == Quotas.Limit(c.quota, USER_OWNER.account)
            && AtMost(c, EMPTY, steps, USER_OWNER, k)
            && (forall i :: 0 <= i < |steps| ==> Fitting(c, steps[i], cap))
            && Store.Usage(Run(c, EMPTY, steps).rows, USER_OWNER) == Bound(limit, cap, k)
  {
    RaceEnds(limit, cap, k);
    RaceIsSmall(limit, cap, k);
    hide Fitting, AtMost, Run, Race, Store.Usage, Small;
    SmallRun(limit, cap, k, Race(limit, cap, k));
  }

  // ------------------------------------------------ where the sum overflows

  // A run of the empty gateway that keeps to the bound.
  ghost predicate WithinBound(c: Config, steps: seq<Step>, o: Owner, limit: int, cap: int, k: nat)
    requires k >= 1
  {
    && o.account != "" && o.issuer != "" && limit == Quotas.Limit(c.quota, o.account)
    && (forall i :: 0 <= i < |steps| ==> Fitting(c, steps[i], cap))
    && AtMost(c, EMPTY, steps, o, k)
    ==> Held(Run(c, EMPTY, steps), o) <= Bound(limit, cap, k)
  }

  // The race, then a check that overflows.
  function Overflow(limit: int, cap: int, k: nat): seq<Step>
    requires limit > 0 && cap > 0
  {
    Race(limit, cap, k) + [BeginAt(cap, 0)]
  }

  lemma OverflowHeld(limit: int, cap: int, k: nat)
    requires limit > 0 && 0 < cap <= MAX_INT64 && k >= 1
    requires Bound(limit, cap, k) <= MAX_INT64 < Bound(limit, cap, k) + cap
    ensures Held(Run(OneConfig(limit, cap), EMPTY, Overflow(limit, cap, k)), USER_OWNER) == Bound(limit, cap, k) + cap
  {
    var c, steps := OneConfig(limit, cap), Race(limit, cap, k);
    BoundShape(limit, cap, k);
    RaceEnds(limit, cap, k);
    var s := Run(c, EMPTY, steps);
    hide Run, Race, Next, Store.Usage;
    RunSnoc(c, EMPTY, steps, BeginAt(cap, 0));
    assert Admits(c, s.rows, USER, "p", Ask(cap), false);
    BegunAt(limit, cap, s, cap, 0);
    var t := Next(c, s, BeginAt(cap, 0));
    FlightAdded(s, t, 0, USER_OWNER);
    SumEmpty<nat, Flight>(Reserved(USER_OWNER));
  }

  // The bound, exactly: provided it is a 64-bit number, it holds of every run of
  // the empty gateway, under every configuration and for every owner of that
  // quota, if and only if one more upload of the largest size fits as well.
  lemma RaceBoundExactly(limit: int, cap: int, k: nat)
    requires limit > 0 && 0 < cap <= MAX_INT64 && k >= 1 && Bound(limit, cap, k) <= MAX_INT64
    ensures (forall c: Config, steps: seq<Step>, o: Owner :: WithinBound(c, steps, o, limit, cap, k))
            <==> Bound(limit, cap, k) + cap <= MAX_INT64
  {
    if Bound(limit, cap, k) + cap <= MAX_INT64 {
      forall c: Config, steps: seq<Step>, o: Owner ensures WithinBound(c, steps, o, limit, cap, k) {
        RoomEnough(c, steps, o, limit, cap, k);
      }
    } else {
      NoRoom(limit, cap, k);
    }
  }

  lemma RoomEnough(c: Config, steps: seq<Step>, o: Owner, limit: int, cap: int, k: nat)
    requires limit > 0 && cap > 0 && k >= 1 && Bound(limit, cap, k) + cap <= MAX_INT64
    ensures WithinBound(c, steps, o, limit, cap, k)
  {
    hide Fitting, AtMost, Run;
    SumEmpty<nat, Flight>(Reserved(o));
    SumEmpty<string, Store.Upload>(Store.Only(Store.Size(), o));
    if o.account != "" && o.issuer != "" && limit == Quotas.Limit(c.quota, o.account)
       && (forall i :: 0 <= i < |steps| ==> Fitting(c, steps[i], cap)) && AtMost(c, EMPTY, steps, o, k)
    {
      BoundShape(limit, cap, k);
      QuotaRaceBounded(c, EMPTY, steps, o, limit, cap, k);
    }
  }

  lemma NoRoom(limit: int, cap: int, k: nat)
    requires limit > 0 && 0 < cap <= MAX_INT64 && k >= 1
    requires Bound(limit, cap, k) <= MAX_INT64 < Bound(limit, cap, k) + cap
    ensures !WithinBound(OneConfig(limit, cap), Overflow(limit, cap, k), USER_OWNER, limit, cap, k)
  {
    OverflowHeld(limit, cap, k);
    RaceIsSmall(limit, cap, k);
    hide Fitting, AtMost, Run, Race, Held;
    SmallRun(limit, cap, k, Overflow(limit, cap, k));
  }
}
