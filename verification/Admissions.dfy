/** The rate limits in front of the upload endpoints: which bucket each request
    draws on, and what that means for addresses and callers over runs. */
module Admissions {
  import opened Wrappers
  import opened RateLimits
  import Auth

  // rate_limit_per_ip, rate_limit_per_user and oneshot_rate_limit.
  datatype Limits = Limits(perIP: Rate, perUser: Rate, oneShot: Rate)

  datatype Endpoint = Presigning | Uploading

  function Name(ep: Endpoint): string { if ep.Presigning? then "presign" else "oneshot" }

  function AddressRate(l: Limits, ep: Endpoint): Rate { if ep.Presigning? then l.perIP else l.oneShot }

  function CallerRate(l: Limits, ep: Endpoint): Rate { if ep.Presigning? then l.perUser else l.oneShot }

  function AddressKey(ep: Endpoint, ip: string): string { Name(ep) + ":ip:" + ip }

  function CallerKey(ep: Endpoint, id: Auth.Identity): string { Name(ep) + ":user:" + id.issuer + "|" + id.subject }

  type Who = Result<Auth.Identity, Auth.AuthError>

  // How far a request gets: the per-address limit, authentication, and the
  // per-caller limit of identified callers.
  datatype Stage = AddressStopped | NotAuthenticated | CallerStopped | Through

  predicate Identified(who: Who) { who.Ok? && !who.value.anonymous }

  function Enter(l: Limits, m: Buckets, ep: Endpoint, ip: string, who: Who, now: int): (Stage, Buckets)
  {
    var m1 := AllowTable(m, AddressKey(ep, ip), AddressRate(l, ep), now);
    if !AllowAnswer(m, AddressKey(ep, ip), AddressRate(l, ep), now) then (AddressStopped, m1)
    else if who.Err? then (NotAuthenticated, m1)
    else if who.value.anonymous then (Through, m1)
    else
      var m2 := AllowTable(m1, CallerKey(ep, who.value), CallerRate(l, ep), now);
      if !AllowAnswer(m1, CallerKey(ep, who.value), CallerRate(l, ep), now) then (CallerStopped, m2) else (Through, m2)
  }

  // ------------------------------------------------------------------- runs

  datatype Arrival = Ask(ep: Endpoint, ip: string, who: Who, now: int) | Janitor(now: int)

  function Serve(l: Limits, m: Buckets, a: Arrival): Buckets
  {
    match a
    case Ask(ep, ip, who, now) => Enter(l, m, ep, ip, who, now).1
    case Janitor(now) => Swept(m, now)
  }

  function StageOf(l: Limits, m: Buckets, a: Arrival): Stage
    requires a.Ask?
  {
    Enter(l, m, a.ep, a.ip, a.who, a.now).0
  }

  function Served(l: Limits, m: Buckets, arrivals: seq<Arrival>): Buckets
    decreases |arrivals|
  {
    if arrivals == [] then m else Served(l, Serve(l, m, arrivals[0]), arrivals[1..])
  }

  // Requests in clock order; a janitor tick may be handled late.
  predicate InOrder(clock: int, arrivals: seq<Arrival>)
    decreases |arrivals|
  {
    arrivals == [] ||
    match arrivals[0]
    case Ask(_, _, _, now) => clock <= now && InOrder(now, arrivals[1..])
    case Janitor(now) => InOrder(if clock < now then now else clock, arrivals[1..])
  }

  function ClockOf(clock: int, arrivals: seq<Arrival>): int
    decreases |arrivals|
  {
    if arrivals == [] then clock
    else ClockOf(if clock < arrivals[0].now then arrivals[0].now else clock, arrivals[1..])
  }

  predicate AllBy(arrivals: seq<Arrival>, t: int) { forall i :: 0 <= i < |arrivals| ==> arrivals[i].now <= t }

  // The requests of an address at an endpoint, and those past its limit.
  predicate FromAddress(a: Arrival, ep: Endpoint, ip: string) { a.Ask? && a.ep == ep && a.ip == ip }

  function Asked(arrivals: seq<Arrival>, ep: Endpoint, ip: string): nat
    decreases |arrivals|
  {
    if arrivals == [] then 0 else One(FromAddress(arrivals[0], ep, ip)) + Asked(arrivals[1..], ep, ip)
  }

  function PastAddress(l: Limits, m: Buckets, arrivals: seq<Arrival>, ep: Endpoint, ip: string): nat
    decreases |arrivals|
  {
    if arrivals == [] then 0
    else
      One(FromAddress(arrivals[0], ep, ip) && StageOf(l, m, arrivals[0]) != AddressStopped)
      + PastAddress(l, Serve(l, m, arrivals[0]), arrivals[1..], ep, ip)
  }

  // The requests of an identified caller at an endpoint that are past the
  // per-address limit, and those that get through.
  predicate FromCaller(a: Arrival, ep: Endpoint, issuer: string, subject: string)
  {
    a.Ask? && a.ep == ep && Identified(a.who) && a.who.value.issuer == issuer && a.who.value.subject == subject
  }

  function AskedBy(l: Limits, m: Buckets, arrivals: seq<Arrival>, ep: Endpoint, issuer: string, subject: string): nat
    decreases |arrivals|
  {
    if arrivals == [] then 0
    else
      One(FromCaller(arrivals[0], ep, issuer, subject) && StageOf(l, m, arrivals[0]) != AddressStopped)
      + AskedBy(l, Serve(l, m, arrivals[0]), arrivals[1..], ep, issuer, subject)
  }

  function ThroughBy(l: Limits, m: Buckets, arrivals: seq<Arrival>, ep: Endpoint, issuer: string, subject: string): nat
    decreases |arrivals|
  {
    if arrivals == [] then 0
    else
      One(FromCaller(arrivals[0], ep, issuer, subject) && StageOf(l, m, arrivals[0]) == Through)
      + ThroughBy(l, Serve(l, m, arrivals[0]), arrivals[1..], ep, issuer, subject)
  }

  // ------------------------------------------------ as a run of the limiter

  // Each bucket always comes with the rate of its kind.
  function PolicyOf(l: Limits): Policy
  {
    (k: string) => if "presign:ip:" <= k then l.perIP else if "presign:user:" <= k then l.perUser else l.oneShot
  }

  function EventsOf(l: Limits, m: Buckets, a: Arrival): seq<Event>
  {
    match a
    case Ask(ep, ip, who, now) =>
      if Identified(who) && AllowAnswer(m, AddressKey(ep, ip), AddressRate(l, ep), now)
      then [Call(AddressKey(ep, ip), now), Call(CallerKey(ep, who.value), now)]
      else [Call(AddressKey(ep, ip), now)]
    case Janitor(now) => [Tick(now)]
  }

  function AllEvents(l: Limits, m: Buckets, arrivals: seq<Arrival>): seq<Event>
    decreases |arrivals|
  {
    if arrivals == [] then [] else EventsOf(l, m, arrivals[0]) + AllEvents(l, Serve(l, m, arrivals[0]), arrivals[1..])
  }

  lemma Rates(l: Limits, ep: Endpoint, ip: string, id: Auth.Identity)
    ensures PolicyOf(l)(AddressKey(ep, ip)) == if ep.Presigning? then l.perIP else l.oneShot
    ensures PolicyOf(l)(CallerKey(ep, id)) == if ep.Presigning? then l.perUser else l.oneShot
  {
    var a, c := AddressKey(ep, ip), CallerKey(ep, id);
    if ep.Presigning? {
      assert a[..11] == "presign:ip:" && c[..13] == "presign:user:";
      assert c[8] == 'u';
    } else {
      assert a[0] == 'o' && c[0] == 'o';
    }
  }

  // An address's bucket is nobody else's.
  lemma AddressesApart(ep: Endpoint, ip: string, ep': Endpoint, ip': string, id: Auth.Identity)
    ensures AddressKey(ep, ip) == AddressKey(ep', ip') <==> ep == ep' && ip == ip'
    ensures AddressKey(ep, ip) != CallerKey(ep', id)
  {
    var a, b, c := AddressKey(ep, ip), AddressKey(ep', ip'), CallerKey(ep', id);
    assert a[0] == Name(ep)[0] && b[0] == Name(ep')[0];
    assert a[8] == 'i' && c[8] == 'u';
    assert a[11..] == ip && b[11..] == ip';
  }

  // No other '|' splits the text into two non-empty halves.
  predicate LoneBar(issuer: string, subject: string)
  {
    var s := issuer + "|" + subject;
    forall p :: 0 < p < |s| - 1 && s[p] == '|' ==> p == |issuer|
  }

  lemma SameCallerKey(ep: Endpoint, a: Auth.Identity, ep': Endpoint, b: Auth.Identity)
    ensures CallerKey(ep, a) == CallerKey(ep', b) <==>
              ep == ep' && a.issuer + "|" + a.subject == b.issuer + "|" + b.subject
  {
    var x, y := CallerKey(ep, a), CallerKey(ep', b);
    assert x[0] == Name(ep)[0] && y[0] == Name(ep')[0];
    assert x == Name(ep) + ":user:" + (a.issuer + "|" + a.subject);
    assert y == Name(ep') + ":user:" + (b.issuer + "|" + b.subject);
    assert x[13..] == a.issuer + "|" + a.subject && y[13..] == b.issuer + "|" + b.subject;
  }

  // A caller has a bucket to itself exactly when its issuer and subject hold no
  // other bar that could be the one between them.
  lemma CallersApartExactly(ep: Endpoint, a: Auth.Identity)
    requires a.issuer != "" && a.subject != ""
    ensures (forall b: Auth.Identity :: b.issuer != "" && b.subject != "" && CallerKey(ep, b) == CallerKey(ep, a) ==>
               b.issuer == a.issuer && b.subject == a.subject)
            <==> LoneBar(a.issuer, a.subject)
  {
    var s := a.issuer + "|" + a.subject;
    if LoneBar(a.issuer, a.subject) {
      forall b: Auth.Identity | b.issuer != "" && b.subject != "" && CallerKey(ep, b) == CallerKey(ep, a)
        ensures b.issuer == a.issuer && b.subject == a.subject
      {
        OwnBucket(ep, b, ep, a);
      }
    } else {
      var p :| 0 < p < |s| - 1 && s[p] == '|' && p != |a.issuer|;
      var b := a.(issuer := s[..p], subject := s[p + 1..]);
      assert b.issuer + "|" + b.subject == s;
      SameCallerKey(ep, b, ep, a);
      assert |b.issuer| != |a.issuer|;
    }
  }

  lemma OwnBucket(ep': Endpoint, b: Auth.Identity, ep: Endpoint, a: Auth.Identity)
    requires b.issuer != "" && b.subject != "" && LoneBar(a.issuer, a.subject)
    ensures CallerKey(ep', b) == CallerKey(ep, a) ==> ep' == ep && b.issuer == a.issuer && b.subject == a.subject
  {
    SameCallerKey(ep', b, ep, a);
    var s, t := a.issuer + "|" + a.subject, b.issuer + "|" + b.subject;
    if s == t {
      assert t[|b.issuer|] == '|';
      assert |b.issuer| == |a.issuer|;
      assert s[..|a.issuer|] == a.issuer && t[..|b.issuer|] == b.issuer;
      assert s[|a.issuer| + 1..] == a.subject && t[|b.issuer| + 1..] == b.subject;
    }
  }

  // Callers of one issuer are always apart.
  lemma SameIssuerApart(ep: Endpoint, a: Auth.Identity, b: Auth.Identity)
    requires a.issuer == b.issuer && CallerKey(ep, a) == CallerKey(ep, b)
    ensures a.subject == b.subject
  {
    SameCallerKey(ep, a, ep, b);
    assert (a.issuer + "|" + a.subject)[|a.issuer| + 1..] == a.subject;
    assert (b.issuer + "|" + b.subject)[|b.issuer| + 1..] == b.subject;
  }

  // ------------------------------------------------- one arrival as events

  lemma OneEvent(p: Policy, m: Buckets, e: Event, k: string)
    ensures After(p, true, m, [e]) == Next(p, true, m, e)
    ensures Admitted(p, true, m, [e], k) == One(e.Call? && e.key == k && AllowAnswer(m, k, p(k), e.now))
    ensures Calls([e], k) == One(e.Call? && e.key == k)
  {
    hide Next, AllowAnswer;
    assert [e][1..] == [];
  }

  lemma TwoEvents(p: Policy, m: Buckets, e: Event, f: Event, k: string)
    ensures After(p, true, m, [e, f]) == Next(p, true, Next(p, true, m, e), f)
    ensures Admitted(p, true, m, [e, f], k)
            == One(e.Call? && e.key == k && AllowAnswer(m, k, p(k), e.now))
             + One(f.Call? && f.key == k && AllowAnswer(Next(p, true, m, e), k, p(k), f.now))
    ensures Calls([e, f], k) == One(e.Call? && e.key == k) + One(f.Call? && f.key == k)
  {
    hide Next, AllowAnswer;
    assert [e, f][1..] == [f];
    OneEvent(p, Next(p, true, m, e), f, k);
  }

  lemma Spelled(l: Limits, m: Buckets, a: Arrival, k: string)
    ensures var p, evs := PolicyOf(l), EventsOf(l, m, a);
            if |evs| == 2 then
              && After(p, true, m, evs) == Next(p, true, Next(p, true, m, evs[0]), evs[1])
              && Admitted(p, true, m, evs, k)
                 == One(evs[0].Call? && evs[0].key == k && AllowAnswer(m, k, p(k), evs[0].now))
                  + One(evs[1].Call? && evs[1].key == k && AllowAnswer(Next(p, true, m, evs[0]), k, p(k), evs[1].now))
              && Calls(evs, k) == One(evs[0].Call? && evs[0].key == k) + One(evs[1].Call? && evs[1].key == k)
            else
              && |evs| == 1 && After(p, true, m, evs) == Next(p, true, m, evs[0])
              && Admitted(p, true, m, evs, k)
                 == One(evs[0].Call? && evs[0].key == k && AllowAnswer(m, k, p(k), evs[0].now))
              && Calls(evs, k) == One(evs[0].Call? && evs[0].key == k)
  {
    hide PolicyOf, AllowTable, AllowAnswer, AddressKey, CallerKey, After, Admitted, Calls, Next;
    var p, evs := PolicyOf(l), EventsOf(l, m, a);
    OneEvent(p, m, evs[0], k);
    if |evs| == 2 { TwoEvents(p, m, evs[0], evs[1], k); }
  }

  lemma ServeIsAfter(l: Limits, m: Buckets, a: Arrival)
    ensures Serve(l, m, a) == After(PolicyOf(l), true, m, EventsOf(l, m, a))
  {
    var p, evs := PolicyOf(l), EventsOf(l, m, a);
    match a
    case Ask(ep, ip, who, now) =>
      Rates(l, ep, ip, if Identified(who) then who.value else Auth.ANONYMOUS);
      hide PolicyOf, AllowTable, AllowAnswer, AddressKey, CallerKey, After;
      Spelled(l, m, a, "");
    case Janitor(now) => Spelled(l, m, a, "");
  }

  // What one arrival adds to the counts of an address's bucket.
  lemma OneForAddress(l: Limits, m: Buckets, a: Arrival, ep: Endpoint, ip: string)
    ensures var k, p, evs := AddressKey(ep, ip), PolicyOf(l), EventsOf(l, m, a);
            && Admitted(p, true, m, evs, k) == One(FromAddress(a, ep, ip) && StageOf(l, m, a) != AddressStopped)
            && Calls(evs, k) == One(FromAddress(a, ep, ip))
  {
    var k, p, evs := AddressKey(ep, ip), PolicyOf(l), EventsOf(l, m, a);
    if a.Ask? {
      var id := if Identified(a.who) then a.who.value else Auth.ANONYMOUS;
      Rates(l, a.ep, a.ip, id);
      AddressesApart(ep, ip, a.ep, a.ip, id);
    }
    hide PolicyOf, AllowTable, AllowAnswer, AddressKey, CallerKey, After, Admitted, Calls;
    Spelled(l, m, a, k);
  }

  // And to those of a caller's bucket, when it is the caller's own.
  lemma OneForCaller(l: Limits, m: Buckets, a: Arrival, ep: Endpoint, id: Auth.Identity)
    ensures var k, p, evs := CallerKey(ep, id), PolicyOf(l), EventsOf(l, m, a);
            && Admitted(p, true, m, evs, k)
               >= One(FromCaller(a, ep, id.issuer, id.subject) && StageOf(l, m, a) == Through)
            && Calls(evs, k) >= One(FromCaller(a, ep, id.issuer, id.subject) && StageOf(l, m, a) != AddressStopped)
    ensures (a.Ask? && Identified(a.who) ==> a.who.value.issuer != "" && a.who.value.subject != "")
            && LoneBar(id.issuer, id.subject) ==>
              var k, p, evs := CallerKey(ep, id), PolicyOf(l), EventsOf(l, m, a);
              && Admitted(p, true, m, evs, k)
                 == One(FromCaller(a, ep, id.issuer, id.subject) && StageOf(l, m, a) == Through)
              && Calls(evs, k) == One(FromCaller(a, ep, id.issuer, id.subject) && StageOf(l, m, a) != AddressStopped)
  {
    var k, p, evs := CallerKey(ep, id), PolicyOf(l), EventsOf(l, m, a);
    if a.Ask? {
      var who := if Identified(a.who) then a.who.value else Auth.ANONYMOUS;
      Rates(l, a.ep, a.ip, who);
      AddressesApart(a.ep, a.ip, ep, a.ip, id);
      SameCallerKey(a.ep, who, ep, id);
      if Identified(a.who) && who.issuer != "" && who.subject != "" && LoneBar(id.issuer, id.subject) {
        OwnBucket(a.ep, who, ep, id);
      }
    }
    hide PolicyOf, AllowTable, AllowAnswer, AddressKey, CallerKey, LoneBar, After, Admitted, Calls;
    Spelled(l, m, a, k);
  }

  // ------------------------------------------------------ whole runs as events

  lemma {:induction false} CallsConcat(xs: seq<Event>, ys: seq<Event>, k: string)
    ensures Calls(xs + ys, k) == Calls(xs, k) + Calls(ys, k)
    decreases |xs|
  {
    if xs == [] {
      assert xs + ys == ys;
    } else {
      assert (xs + ys)[1..] == xs[1..] + ys;
      CallsConcat(xs[1..], ys, k);
    }
  }

  lemma {:induction false} EvictionsConcat(p: Policy, m: Buckets, xs: seq<Event>, ys: seq<Event>, k: string)
    ensures Evictions(p, true, m, xs + ys, k)
            == Evictions(p, true, m, xs, k) + Evictions(p, true, After(p, true, m, xs), ys, k)
    decreases |xs|
  {
    hide Next;
    if xs == [] {
      assert xs + ys == ys;
    } else {
      assert (xs + ys)[1..] == xs[1..] + ys;
      EvictionsConcat(p, Next(p, true, m, xs[0]), xs[1..], ys, k);
    }
  }

  lemma {:induction false} ServedIsAfter(l: Limits, m: Buckets, arrivals: seq<Arrival>)
    ensures Served(l, m, arrivals) == After(PolicyOf(l), true, m, AllEvents(l, m, arrivals))
    decreases |arrivals|
  {
    hide Serve, EventsOf, PolicyOf, Next;
    if arrivals != [] {
      var a, rest := arrivals[0], arrivals[1..];
      ServeIsAfter(l, m, a);
      ServedIsAfter(l, Serve(l, m, a), rest);
      AdmittedConcat(PolicyOf(l), true, m, EventsOf(l, m, a), AllEvents(l, Serve(l, m, a), rest), "");
    }
  }

  lemma {:induction false} AddressCounts(l: Limits, m: Buckets, arrivals: seq<Arrival>, ep: Endpoint, ip: string)
    ensures Admitted(PolicyOf(l), true, m, AllEvents(l, m, arrivals), AddressKey(ep, ip))
            == PastAddress(l, m, arrivals, ep, ip)
    ensures Calls(AllEvents(l, m, arrivals), AddressKey(ep, ip)) == Asked(arrivals, ep, ip)
    decreases |arrivals|
  {
    hide Serve, EventsOf, PolicyOf, Next, StageOf, AddressKey, FromAddress, AllowAnswer;
    if arrivals != [] {
      var a, rest := arrivals[0], arrivals[1..];
      var m', k := Serve(l, m, a), AddressKey(ep, ip);
      ServeIsAfter(l, m, a);
      OneForAddress(l, m, a, ep, ip);
      AddressCounts(l, m', rest, ep, ip);
      AdmittedConcat(PolicyOf(l), true, m, EventsOf(l, m, a), AllEvents(l, m', rest), k);
      CallsConcat(EventsOf(l, m, a), AllEvents(l, m', rest), k);
    }
  }

  // Identities are as authentication resolves them.
  predicate Resolved(arrivals: seq<Arrival>)
  {
    forall i :: 0 <= i < |arrivals| && arrivals[i].Ask? && Identified(arrivals[i].who) ==>
      arrivals[i].who.value.issuer != "" && arrivals[i].who.value.subject != ""
  }

  lemma {:induction false} CallerCounts(l: Limits, m: Buckets, arrivals: seq<Arrival>, ep: Endpoint, id: Auth.Identity)
    ensures Admitted(PolicyOf(l), true, m, AllEvents(l, m, arrivals), CallerKey(ep, id))
            >= ThroughBy(l, m, arrivals, ep, id.issuer, id.subject)
    ensures Resolved(arrivals) && LoneBar(id.issuer, id.subject) ==>
              && Admitted(PolicyOf(l), true, m, AllEvents(l, m, arrivals), CallerKey(ep, id))
                 == ThroughBy(l, m, arrivals, ep, id.issuer, id.subject)
              && Calls(AllEvents(l, m, arrivals), CallerKey(ep, id))
                 == AskedBy(l, m, arrivals, ep, id.issuer, id.subject)
    decreases |arrivals|
  {
    hide Serve, EventsOf, PolicyOf, Next, StageOf, CallerKey, FromCaller, AllowAnswer, LoneBar;
    if arrivals != [] {
      var a, rest := arrivals[0], arrivals[1..];
      var m', k := Serve(l, m, a), CallerKey(ep, id);
      ServeIsAfter(l, m, a);
      OneForCaller(l, m, a, ep, id);
      CallerCounts(l, m', rest, ep, id);
      AdmittedConcat(PolicyOf(l), true, m, EventsOf(l, m, a), AllEvents(l, m', rest), k);
      CallsConcat(EventsOf(l, m, a), AllEvents(l, m', rest), k);
    }
  }

  lemma {:induction false} EventsOrdered(l: Limits, m: Buckets, clock: int, arrivals: seq<Arrival>)
    requires InOrder(clock, arrivals)
    ensures Ordered(clock, AllEvents(l, m, arrivals))
    ensures ClockAfter(clock, AllEvents(l, m, arrivals)) == ClockOf(clock, arrivals)
    decreases |arrivals|
  {
    hide Serve, PolicyOf, AddressKey, CallerKey, AllowAnswer;
    if arrivals != [] {
      var a, rest := arrivals[0], arrivals[1..];
      var later := if clock < a.now then a.now else clock;
      EventsOrdered(l, Serve(l, m, a), later, rest);
      OrderedFront(clock, EventsOf(l, m, a), AllEvents(l, Serve(l, m, a), rest), a.now);
    }
  }

  lemma OrderedFront(clock: int, evs: seq<Event>, rest: seq<Event>, now: int)
    requires |evs| == 1 || (|evs| == 2 && evs[0].Call? && evs[1].Call?)
    requires forall i :: 0 <= i < |evs| ==> evs[i].now == now && (evs[i].Call? ==> clock <= now)
    requires Ordered(if clock < now then now else clock, rest)
    ensures Ordered(clock, evs + rest)
    ensures ClockAfter(clock, evs + rest) == ClockAfter(if clock < now then now else clock, rest)
  {
    if |evs| == 1 {
      assert (evs + rest)[1..] == rest;
    } else {
      assert (evs + rest)[1..] == [evs[1]] + rest;
      assert ([evs[1]] + rest)[1..] == rest;
      assert Ordered(now, [evs[1]] + rest);
    }
  }

  lemma {:induction false} EventsBy(l: Limits, m: Buckets, arrivals: seq<Arrival>, t: int)
    requires AllBy(arrivals, t)
    ensures EndsBy(AllEvents(l, m, arrivals), t)
    decreases |arrivals|
  {
    hide Serve, PolicyOf, AddressKey, CallerKey, AllowAnswer;
    if arrivals != [] {
      EventsBy(l, Serve(l, m, arrivals[0]), arrivals[1..], t);
      assert EndsBy(EventsOf(l, m, arrivals[0]), t);
    }
  }

  lemma {:induction false} UnlimitedCounts(p: Policy, m: Buckets, evs: seq<Event>, k: string)
    requires !Configured(p(k))
    ensures Admitted(p, true, m, evs, k) == Calls(evs, k)
    decreases |evs|
  {
    hide Next;
    if evs != [] { UnlimitedCounts(p, Next(p, true, m, evs[0]), evs[1..], k); }
  }

  // -------------------------------------------------------- what limits mean

  // Nobody's requests count against an address but its own: over every run, at
  // either endpoint, as long as an address has sent no more than its limit, and
  // always when there is none, all its requests are past the per-address limit.
  lemma {:induction false} FirstRequestsPass(l: Limits, clock: int, arrivals: seq<Arrival>, ep: Endpoint, ip: string)
    requires InOrder(clock, arrivals)
    ensures var rate := if ep.Presigning? then l.perIP else l.oneShot;
            rate.limit <= 0 || rate.window <= 0 || Asked(arrivals, ep, ip) <= rate.limit ==>
              PastAddress(l, map[], arrivals, ep, ip) == Asked(arrivals, ep, ip)
  {
    hide AllowAnswer, PolicyOf, Next;
    var evs, k := AllEvents(l, map[], arrivals), AddressKey(ep, ip);
    Rates(l, ep, ip, Auth.ANONYMOUS);
    AddressCounts(l, map[], arrivals, ep, ip);
    EventsOrdered(l, map[], clock, arrivals);
    if !Configured(PolicyOf(l)(k)) {
      UnlimitedCounts(PolicyOf(l), map[], evs, k);
    } else if Calls(evs, k) <= PolicyOf(l)(k).limit {
      FirstCallsAdmitted(PolicyOf(l), true, map[], clock, evs, k, PolicyOf(l)(k).limit);
    }
  }

  // The request of an address that was not seen before is past its limit,
  // whatever others sent.
  lemma {:induction false} NewAddressPasses(l: Limits, clock: int, arrivals: seq<Arrival>, a: Arrival)
    requires a.Ask? && InOrder(clock, arrivals + [a])
    requires forall i :: 0 <= i < |arrivals| && arrivals[i].Ask? ==> arrivals[i].ep != a.ep || arrivals[i].ip != a.ip
    ensures StageOf(l, Served(l, map[], arrivals), a) != AddressStopped
  {
    hide StageOf, Serve;
    NeverAsked(l, map[], arrivals, a);
    FirstRequestsPass(l, clock, arrivals + [a], a.ep, a.ip);
    var rate := if a.ep.Presigning? then l.perIP else l.oneShot;
    assert rate.limit <= 0 || 1 <= rate.limit;
  }

  lemma {:induction false} NeverAsked(l: Limits, m: Buckets, arrivals: seq<Arrival>, a: Arrival)
    requires a.Ask?
    requires forall i :: 0 <= i < |arrivals| && arrivals[i].Ask? ==> arrivals[i].ep != a.ep || arrivals[i].ip != a.ip
    ensures Asked(arrivals + [a], a.ep, a.ip) == 1
    ensures PastAddress(l, m, arrivals + [a], a.ep, a.ip)
            == One(StageOf(l, Served(l, m, arrivals), a) != AddressStopped)
    decreases |arrivals|
  {
    hide StageOf, Serve;
    if arrivals == [] {
      assert arrivals + [a] == [a] && [a][1..] == [];
    } else {
      assert (arrivals + [a])[1..] == arrivals[1..] + [a];
      NeverAsked(l, Serve(l, m, arrivals[0]), arrivals[1..], a);
    }
  }

  // How often the janitor forgets an address.
  function Forgotten(l: Limits, m: Buckets, arrivals: seq<Arrival>, k: string): nat
    decreases |arrivals|
  {
    if arrivals == [] then 0
    else One(k in m && k !in Serve(l, m, arrivals[0])) + Forgotten(l, Serve(l, m, arrivals[0]), arrivals[1..], k)
  }

  lemma OneForgotten(l: Limits, m: Buckets, a: Arrival, k: string)
    ensures Evictions(PolicyOf(l), true, m, EventsOf(l, m, a), k) == One(k in m && k !in Serve(l, m, a))
  {
    ServeIsAfter(l, m, a);
    var p, evs := PolicyOf(l), EventsOf(l, m, a);
    hide PolicyOf, Serve, AllowAnswer, AllowTable, AddressKey, CallerKey;
    if |evs| == 2 {
      assert evs == [evs[0]] + [evs[1]];
      var m1 := Next(p, true, m, evs[0]);
      EvictionsConcat(p, m, [evs[0]], [evs[1]], k);
      TwoEvents(p, m, evs[0], evs[1], k);
      OneEvent(p, m, evs[0], k);
      OneEviction(p, m, evs[0], k);
      OneEviction(p, m1, evs[1], k);
    } else {
      assert evs == [evs[0]];
      OneEvent(p, m, evs[0], k);
      OneEviction(p, m, evs[0], k);
    }
  }

  lemma OneEviction(p: Policy, m: Buckets, e: Event, k: string)
    ensures Evictions(p, true, m, [e], k) == One(k in m && k !in Next(p, true, m, e))
    ensures e.Call? ==> Evictions(p, true, m, [e], k) == 0 && (k in m ==> k in Next(p, true, m, e))
  {
    assert [e][1..] == [];
  }

  lemma {:induction false} ForgottenIsEvictions(l: Limits, m: Buckets, arrivals: seq<Arrival>, k: string)
    ensures Evictions(PolicyOf(l), true, m, AllEvents(l, m, arrivals), k) == Forgotten(l, m, arrivals, k)
    decreases |arrivals|
  {
    hide Serve, EventsOf, PolicyOf, Next;
    if arrivals != [] {
      var a, rest := arrivals[0], arrivals[1..];
      ServeIsAfter(l, m, a);
      OneForgotten(l, m, a, k);
      ForgottenIsEvictions(l, Serve(l, m, a), rest, k);
      EvictionsConcat(PolicyOf(l), m, EventsOf(l, m, a), AllEvents(l, Serve(l, m, a), rest), k);
    }
  }

  lemma {:induction false} KeyBound(l: Limits, clock: int, before: seq<Arrival>, stretch: seq<Arrival>,
                                    t0: int, t1: int, k: string, rate: Rate)
    requires InOrder(clock, before) && ClockOf(clock, before) <= t0
    requires InOrder(t0, stretch) && AllBy(stretch, t1) && t0 <= t1
    requires PolicyOf(l)(k) == rate && rate.limit > 0 && rate.window >= rate.limit
    ensures var m := Served(l, map[], before);
            var n := Admitted(PolicyOf(l), true, m, AllEvents(l, m, stretch), k);
            && n <= rate.limit * (1 + Forgotten(l, m, stretch, k)) + (t1 - t0) / (rate.window / rate.limit)
            && (rate.limit * (rate.window / rate.limit) <= 600_000_000_001 ==>
                  n <= rate.limit + (t1 - t0) / (rate.window / rate.limit))
  {
    PositiveInterval(rate);
    hide PolicyOf, Next, Admitted, Evictions, After;
    var m := Served(l, map[], before);
    ServedIsAfter(l, map[], before);
    EventsOrdered(l, map[], clock, before);
    EventsOrdered(l, m, t0, stretch);
    EventsBy(l, m, stretch, t1);
    ForgottenIsEvictions(l, m, stretch, k);
    AdmissionBound(PolicyOf(l), clock, AllEvents(l, map[], before), AllEvents(l, m, stretch), t0, t1, k);
  }

  // An address gets at most limit*(1+E) + T/I requests past its limit in any
  // stretch of length T of any run, E counting how often it is forgotten in the
  // stretch; and at most limit + T/I when its bucket refills in time.
  lemma {:induction false} AddressBound(l: Limits, clock: int, before: seq<Arrival>, stretch: seq<Arrival>,
                                        t0: int, t1: int, ep: Endpoint, ip: string)
    requires InOrder(clock, before) && ClockOf(clock, before) <= t0
    requires InOrder(t0, stretch) && AllBy(stretch, t1) && t0 <= t1
    requires var rate := if ep.Presigning? then l.perIP else l.oneShot; rate.limit > 0 && rate.window >= rate.limit
    ensures var rate := if ep.Presigning? then l.perIP else l.oneShot;
            var m := Served(l, map[], before);
            var n := PastAddress(l, m, stretch, ep, ip);
            && n <= rate.limit * (1 + Forgotten(l, m, stretch, AddressKey(ep, ip)))
                    + (t1 - t0) / (rate.window / rate.limit)
            && (rate.limit * (rate.window / rate.limit) <= 600_000_000_001 ==>
                  n <= rate.limit + (t1 - t0) / (rate.window / rate.limit))
  {
    var rate, k := if ep.Presigning? then l.perIP else l.oneShot, AddressKey(ep, ip);
    Rates(l, ep, ip, Auth.ANONYMOUS);
    hide PolicyOf, Served, AddressKey, PastAddress, Forgotten, Admitted, AllEvents;
    KeyBound(l, clock, before, stretch, t0, t1, k, rate);
    AddressCounts(l, Served(l, map[], before), stretch, ep, ip);
  }

  lemma PositiveInterval(r: Rate)
    requires r.limit > 0 && r.window >= r.limit
    ensures r.window / r.limit >= 1
  {
  }

  // The same of an identified caller and the requests that get through.
  lemma {:induction false} CallerBound(l: Limits, clock: int, before: seq<Arrival>, stretch: seq<Arrival>,
                                       t0: int, t1: int, ep: Endpoint, id: Auth.Identity)
    requires InOrder(clock, before) && ClockOf(clock, before) <= t0
    requires InOrder(t0, stretch) && AllBy(stretch, t1) && t0 <= t1
    requires var rate := if ep.Presigning? then l.perUser else l.oneShot; rate.limit > 0 && rate.window >= rate.limit
    ensures var rate := if ep.Presigning? then l.perUser else l.oneShot;
            var m := Served(l, map[], before);
            var n := ThroughBy(l, m, stretch, ep, id.issuer, id.subject);
            && n <= rate.limit * (1 + Forgotten(l, m, stretch, CallerKey(ep, id)))
                    + (t1 - t0) / (rate.window / rate.limit)
            && (rate.limit * (rate.window / rate.limit) <= 600_000_000_001 ==>
                  n <= rate.limit + (t1 - t0) / (rate.window / rate.limit))
  {
    var rate, k := if ep.Presigning? then l.perUser else l.oneShot, CallerKey(ep, id);
    Rates(l, ep, "", id);
    hide PolicyOf, Served, CallerKey, LoneBar, ThroughBy, AskedBy, Forgotten, Admitted, AllEvents, Resolved, InOrder,
         AllBy, ClockOf, Calls;
    KeyBound(l, clock, before, stretch, t0, t1, k, rate);
    CallerCounts(l, Served(l, map[], before), stretch, ep, id);
  }

  // And nobody's requests count against a caller with a bucket to itself but the
  // caller's own: up to its limit, all that are past the per-address limit get
  // through.
  lemma {:induction false} FirstCallerRequestsPass(l: Limits, clock: int, arrivals: seq<Arrival>, ep: Endpoint,
                                                   id: Auth.Identity)
    requires InOrder(clock, arrivals) && Resolved(arrivals) && LoneBar(id.issuer, id.subject)
    ensures var rate := if ep.Presigning? then l.perUser else l.oneShot;
            var asked := AskedBy(l, map[], arrivals, ep, id.issuer, id.subject);
            rate.limit <= 0 || rate.window <= 0 || asked <= rate.limit ==>
              ThroughBy(l, map[], arrivals, ep, id.issuer, id.subject) == asked
  {
    hide AllowAnswer, PolicyOf, Next, LoneBar;
    var evs, k := AllEvents(l, map[], arrivals), CallerKey(ep, id);
    Rates(l, ep, "", id);
    CallerCounts(l, map[], arrivals, ep, id);
    EventsOrdered(l, map[], clock, arrivals);
    if !Configured(PolicyOf(l)(k)) {
      UnlimitedCounts(PolicyOf(l), map[], evs, k);
    } else if Calls(evs, k) <= PolicyOf(l)(k).limit {
      FirstCallsAdmitted(PolicyOf(l), true, map[], clock, evs, k, PolicyOf(l)(k).limit);
    }
  }

  // ------------------------------------------------- callers sharing a bucket

  function Address(i: nat): string { seq(i, _ => '1') }

  // n requests of one caller at one instant, each from an address of its own.
  function Crowd(ep: Endpoint, who: Auth.Identity, n: nat): seq<Arrival>
  {
    if n == 0 then [] else Crowd(ep, who, n - 1) + [Ask(ep, Address(n - 1), Ok(who), 0)]
  }

  lemma {:induction false} ServedSnoc(l: Limits, m: Buckets, arrivals: seq<Arrival>, a: Arrival)
    ensures Served(l, m, arrivals + [a]) == Serve(l, Served(l, m, arrivals), a)
    decreases |arrivals|
  {
    hide Serve;
    if arrivals == [] {
      assert arrivals + [a] == [a] && [a][1..] == [];
    } else {
      assert (arrivals + [a])[1..] == arrivals[1..] + [a];
      ServedSnoc(l, Serve(l, m, arrivals[0]), arrivals[1..], a);
    }
  }

  // A bucket that n requests of its caller at time 0 have drawn on.
  predicate DrawnBucket(m: Buckets, k: string, rate: Rate, n: nat)
    requires Configured(rate)
  {
    if n == 0 then k !in m
    else k in m && m[k].lim == Limiter(Interval(rate), rate.limit, (rate.limit - n) * Interval(rate), 0)
  }

  ghost predicate Drawn(m: Buckets, ep: Endpoint, id: Auth.Identity, rate: Rate, n: nat)
    requires Configured(rate)
  {
    && DrawnBucket(m, CallerKey(ep, id), rate, n)
    && forall ip :: |ip| >= n ==> AddressKey(ep, ip) !in m
  }

  lemma DrawsMore(m: Buckets, k: string, rate: Rate, n: nat)
    requires rate.limit > 0 && rate.window >= rate.limit && n <= rate.limit && DrawnBucket(m, k, rate, n)
    ensures AllowAnswer(m, k, rate, 0) <==> n < rate.limit
    ensures n < rate.limit ==> DrawnBucket(AllowTable(m, k, rate, 0), k, rate, n + 1)
  {
    var i, left := Interval(rate), rate.limit - n;
    PositiveInterval(rate);
    assert (left - 1) * i == left * i - i;
    if n < rate.limit { MulMonotone(1, left, i); }
    MulMonotone(left, rate.limit, i);
  }

  lemma OtherBuckets(m: Buckets, k: string, rate: Rate, now: int)
    ensures m.Keys <= AllowTable(m, k, rate, now).Keys <= m.Keys + {k}
    ensures forall j :: j in m && j != k ==> AllowTable(m, k, rate, now)[j] == m[j]
  {
  }

  lemma OneMore(l: Limits, m: Buckets, ep: Endpoint, id: Auth.Identity, n: nat)
    requires var rate := CallerRate(l, ep); rate.limit > 0 && rate.window >= rate.limit && n <= rate.limit
    requires Drawn(m, ep, id, CallerRate(l, ep), n) && !id.anonymous
    ensures var (stage, m') := Enter(l, m, ep, Address(n), Ok(id), 0);
            if n < CallerRate(l, ep).limit then stage == Through && Drawn(m', ep, id, CallerRate(l, ep), n + 1)
            else stage == CallerStopped
  {
    var rate, k, a := CallerRate(l, ep), CallerKey(ep, id), AddressKey(ep, Address(n));
    var m1 := AllowTable(m, a, AddressRate(l, ep), 0);
    AddressesApart(ep, Address(n), ep, "", id);
    FreshPasses(m, a, AddressRate(l, ep));
    OtherBuckets(m, a, AddressRate(l, ep), 0);
    assert DrawnBucket(m1, k, rate, n);
    DrawsMore(m1, k, rate, n);
    OtherBuckets(m1, k, rate, 0);
    forall ip | |ip| >= n + 1 ensures AddressKey(ep, ip) !in AllowTable(m1, k, rate, 0) {
      AddressesApart(ep, ip, ep, Address(n), id);
    }
  }

  lemma FreshPasses(m: Buckets, k: string, rate: Rate)
    requires k !in m
    ensures AllowAnswer(m, k, rate, 0)
  {
    if Configured(rate) { MulMonotone(1, rate.limit, Interval(rate)); }
  }

  lemma {:induction false} CrowdDraws(l: Limits, ep: Endpoint, id: Auth.Identity, n: nat)
    requires var rate := CallerRate(l, ep); rate.limit > 0 && rate.window >= rate.limit && n <= rate.limit
    requires !id.anonymous
    ensures Drawn(Served(l, map[], Crowd(ep, id, n)), ep, id, CallerRate(l, ep), n)
    ensures |Crowd(ep, id, n)| == n
    ensures forall i :: 0 <= i < n ==> Crowd(ep, id, n)[i] == Ask(ep, Address(i), Ok(id), 0)
  {
    hide Enter, CallerKey, AddressKey, CallerRate, Interval;
    if n > 0 {
      CrowdDraws(l, ep, id, n - 1);
      var m := Served(l, map[], Crowd(ep, id, n - 1));
      OneMore(l, m, ep, id, n - 1);
      ServedSnoc(l, map[], Crowd(ep, id, n - 1), Ask(ep, Address(n - 1), Ok(id), 0));
    }
  }

  predicate Stranger(a: Arrival, b: Auth.Identity)
  {
    a.Ask? && a.who.Ok? && (a.who.value.issuer != b.issuer || a.who.value.subject != b.subject)
  }

  // After nothing but other callers' requests, one more is all that b asked.
  lemma {:induction false} FirstAsked(l: Limits, m: Buckets, arrivals: seq<Arrival>, a: Arrival, b: Auth.Identity)
    requires forall i :: 0 <= i < |arrivals| ==> Stranger(arrivals[i], b)
    requires a.Ask? && FromCaller(a, a.ep, b.issuer, b.subject)
    ensures var stage := StageOf(l, Served(l, m, arrivals), a);
            && AskedBy(l, m, arrivals + [a], a.ep, b.issuer, b.subject) == One(stage != AddressStopped)
            && ThroughBy(l, m, arrivals + [a], a.ep, b.issuer, b.subject) == One(stage == Through)
    decreases |arrivals|
  {
    hide StageOf, Serve;
    if arrivals == [] {
      assert arrivals + [a] == [a] && [a][1..] == [];
    } else {
      assert (arrivals + [a])[1..] == arrivals[1..] + [a];
      FirstAsked(l, Serve(l, m, arrivals[0]), arrivals[1..], a, b);
    }
  }

  lemma {:induction false} InOrderAtZero(arrivals: seq<Arrival>)
    requires forall i :: 0 <= i < |arrivals| ==> arrivals[i].Ask? && arrivals[i].now == 0
    ensures InOrder(0, arrivals)
    decreases |arrivals|
  {
    if arrivals != [] { InOrderAtZero(arrivals[1..]); }
  }

  // Up to its limit, all requests of a caller that are past the per-address
  // limit get through, whatever others send.
  ghost predicate Undisturbed(l: Limits, ep: Endpoint, issuer: string, subject: string)
  {
    forall clock: int, arrivals: seq<Arrival> ::
      InOrder(clock, arrivals) && Resolved(arrivals)
      && AskedBy(l, map[], arrivals, ep, issuer, subject) <= CallerRate(l, ep).limit ==>
        ThroughBy(l, map[], arrivals, ep, issuer, subject) == AskedBy(l, map[], arrivals, ep, issuer, subject)
  }

  lemma CrowdedOut(l: Limits, ep: Endpoint, a: Auth.Identity, b: Auth.Identity)
    requires var rate := CallerRate(l, ep); rate.limit > 0 && rate.window >= rate.limit
    requires !a.anonymous && !b.anonymous && CallerKey(ep, a) == CallerKey(ep, b)
    requires a.issuer != b.issuer || a.subject != b.subject
    requires a.issuer != "" && a.subject != "" && b.issuer != "" && b.subject != ""
    ensures !Undisturbed(l, ep, a.issuer, a.subject)
  {
    hide Enter, Served, CallerKey, AddressKey, InOrder, AskedBy, ThroughBy, Crowd, LoneBar, CallerRate;
    var n := CallerRate(l, ep).limit;
    var crowd, last := Crowd(ep, b, n), Ask(ep, Address(n), Ok(a), 0);
    CrowdDraws(l, ep, b, n);
    OneMore(l, Served(l, map[], crowd), ep, a, n);
    FirstAsked(l, map[], crowd, last, a);
    InOrderAtZero(crowd + [last]);
    assert Resolved(crowd + [last]);
    assert InOrder(0, crowd + [last]);
  }

  // Exactly the callers with a bucket to themselves are undisturbed.
  lemma UndisturbedExactly(l: Limits, ep: Endpoint, issuer: string, subject: string)
    requires issuer != "" && subject != ""
    requires var rate := if ep.Presigning? then l.perUser else l.oneShot; rate.limit > 0 && rate.window >= rate.limit
    ensures Undisturbed(l, ep, issuer, subject) <==> LoneBar(issuer, subject)
  {
    var a := Auth.ANONYMOUS.(issuer := issuer, subject := subject, anonymous := false);
    CallersApartExactly(ep, a);
    if LoneBar(issuer, subject) {
      forall clock: int, arrivals: seq<Arrival> |
        InOrder(clock, arrivals) && Resolved(arrivals)
        && AskedBy(l, map[], arrivals, ep, issuer, subject) <= CallerRate(l, ep).limit
        ensures ThroughBy(l, map[], arrivals, ep, issuer, subject) == AskedBy(l, map[], arrivals, ep, issuer, subject)
      {
        FirstCallerRequestsPass(l, clock, arrivals, ep, a);
      }
    } else {
      var b: Auth.Identity :| b.issuer != "" && b.subject != "" && CallerKey(ep, b) == CallerKey(ep, a)
                              && (b.issuer != a.issuer || b.subject != a.subject);
      var b' := b.(anonymous := false);
      SameCallerKey(ep, b, ep, a);
      SameCallerKey(ep, b', ep, a);
      CrowdedOut(l, ep, a, b');
    }
  }
}
