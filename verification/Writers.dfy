/** Interleaved writers on one disk: many PUTs and one-shot uploads stream into
    their temp files while others finish, fail, crash, or delete objects. */
module Writers {
  import opened Wrappers
  import opened Decimal
  import opened Transfers

  datatype Writer = Writer(dst: string, tmp: string, maxSize: int, sent: Bytes)

  // A write that was accepted: its whole body, as the client sent it.
  datatype Landing = Landing(path: string, body: Bytes, maxSize: int)

  // `landed` is a history variable: no step looks at it.
  datatype State = State(files: map<string, Bytes>, writers: map<nat, Writer>, landed: set<Landing>)

  datatype Step =
    | OpenTemp(w: nat, dst: string, tmp: string, maxSize: int)  // CreateTemp
    | Deliver(w: nat, chunk: Bytes)                             // one Read and Write of io.Copy
    | Close(w: nat)                                             // EOF, size check, rename
    | Break(w: nat)                                             // a failure; deferred removal of the temp file
    | Crash(w: nat)                                             // the process dies, the temp file stays
    | Remove(p: string)                                         // DeleteObject

  const EMPTY := State(map[], map[], {})

  function Next(s: State, e: Step): State
  {
    match e
    case OpenTemp(w, dst, tmp, maxSize) =>
      if w in s.writers || tmp in s.files then s   // O_EXCL refuses a name in use
      else s.(files := s.files[tmp := []], writers := s.writers[w := Writer(dst, tmp, maxSize, [])])
    case Deliver(w, chunk) =>
      if w !in s.writers then s
      else
        var x := s.writers[w];
        var sent := x.sent + chunk;
        s.(files := s.files[x.tmp := Copied(ByteLimit(x.maxSize), sent)], writers := s.writers[w := x.(sent := sent)])
    case Close(w) =>
      if w !in s.writers || s.writers[w].tmp !in s.files then s
      else
        var x := s.writers[w];
        var content := s.files[x.tmp];
        if Fits(x.maxSize, content) then
          State((s.files - {x.tmp})[x.dst := content], s.writers - {w}, s.landed + {Landing(x.dst, x.sent, x.maxSize)})
        else s.(files := s.files - {x.tmp}, writers := s.writers - {w})
    case Break(w) =>
      if w !in s.writers then s
      else s.(files := s.files - {s.writers[w].tmp}, writers := s.writers - {w})
    case Crash(w) => s.(writers := s.writers - {w})
    case Remove(p) => s.(files := s.files - {p})
  }

  function Run(s: State, steps: seq<Step>): State
  {
    if steps == [] then s else Next(Run(s, steps[..|steps| - 1]), steps[|steps| - 1])
  }

  // What the driver's callers guarantee, for a set of object paths: writes and
  // deletes name objects, temp names do not, and the size limit leaves room for
  // its +1.
  predicate Proper(isObject: string -> bool, e: Step)
  {
    match e
    case OpenTemp(w, dst, tmp, maxSize) => isObject(dst) && !isObject(tmp) && IsInt64(maxSize) && maxSize != MAX_INT64
    case Remove(p) => isObject(p)
    case _ => true
  }

  predicate WriterOk(isObject: string -> bool, s: State, x: Writer)
  {
    && x.tmp in s.files && s.files[x.tmp] == Copied(ByteLimit(x.maxSize), x.sent)
    && !isObject(x.tmp) && isObject(x.dst)
    && IsInt64(x.maxSize) && x.maxSize != MAX_INT64
  }

  // The content at p is the whole body of one accepted write to p, within its limit.
  ghost predicate Accounted(s: State, p: string)
    requires p in s.files
  {
    exists l :: l in s.landed && l.path == p && l.body == s.files[p] && Fits(l.maxSize, l.body)
  }

  ghost predicate Inv(isObject: string -> bool, s: State)
  {
    && WritersOk(isObject, s)
    && (forall p :: p in s.files && isObject(p) ==> Accounted(s, p))
  }

  lemma CloseLands(isObject: string -> bool, s: State, w: nat)
    requires Inv(isObject, s) && w in s.writers && Fits(s.writers[w].maxSize, s.files[s.writers[w].tmp])
    ensures var x := s.writers[w]; var t := Next(s, Close(w));
            x.dst in t.files && t.files[x.dst] == x.sent && Accounted(t, x.dst)
  {
    var x := s.writers[w];
    assert WriterOk(isObject, s, x) && s.files[x.tmp] == x.sent;
    assert Landing(x.dst, x.sent, x.maxSize) in Next(s, Close(w)).landed;
  }

  ghost predicate WritersOk(isObject: string -> bool, s: State)
  {
    && (forall w :: w in s.writers ==> WriterOk(isObject, s, s.writers[w]))
    && (forall v, w :: v in s.writers && w in s.writers && v != w ==> s.writers[v].tmp != s.writers[w].tmp)
  }

  lemma StepKeepsWriter(isObject: string -> bool, s: State, e: Step, w: nat)
    requires WritersOk(isObject, s) && Proper(isObject, e)
    requires w in Next(s, e).writers
    ensures WriterOk(isObject, Next(s, e), Next(s, e).writers[w])
  {
    if w in s.writers {
      assert WriterOk(isObject, s, s.writers[w]);
      match e
      case OpenTemp(_, _, _, _) =>
      case Deliver(v, _) => if v in s.writers && v != w { assert s.writers[v].tmp != s.writers[w].tmp; }
      case Close(v) => if v in s.writers { assert WriterOk(isObject, s, s.writers[v]); }
      case Break(v) => if v in s.writers { assert s.writers[v].tmp != s.writers[w].tmp; }
      case Crash(_) =>
      case Remove(p) =>
    } else {
      assert Copied(ByteLimit(e.maxSize), []) == [];
    }
  }

  lemma StepKeepsWriters(isObject: string -> bool, s: State, e: Step)
    requires WritersOk(isObject, s) && Proper(isObject, e)
    ensures WritersOk(isObject, Next(s, e))
  {
    var t := Next(s, e);
    forall w | w in t.writers ensures WriterOk(isObject, t, t.writers[w]) {
      StepKeepsWriter(isObject, s, e, w);
    }
    forall v, w | v in t.writers && w in t.writers && v != w ensures t.writers[v].tmp != t.writers[w].tmp {
      if v in s.writers { assert s.writers[v].tmp in s.files by { assert WriterOk(isObject, s, s.writers[v]); } }
      if w in s.writers { assert s.writers[w].tmp in s.files by { assert WriterOk(isObject, s, s.writers[w]); } }
    }
  }

  lemma StepKeepsObjects(isObject: string -> bool, s: State, e: Step, p: string)
    requires Inv(isObject, s) && Proper(isObject, e)
    requires p in Next(s, e).files && isObject(p)
    ensures Accounted(Next(s, e), p)
  {
    var t := Next(s, e);
    if (e.Close? || e.Deliver?) && e.w in s.writers { assert WriterOk(isObject, s, s.writers[e.w]); }
    if e.Close? && e.w in s.writers && p == s.writers[e.w].dst
        && Fits(s.writers[e.w].maxSize, s.files[s.writers[e.w].tmp]) {
      CloseLands(isObject, s, e.w);
    } else {
      assert p in s.files && s.files[p] == t.files[p];
      var l :| l in s.landed && l.path == p && l.body == s.files[p] && Fits(l.maxSize, l.body);
      assert l in t.landed;
    }
  }

  lemma StepKeepsInv(isObject: string -> bool, s: State, e: Step)
    requires Inv(isObject, s) && Proper(isObject, e)
    ensures Inv(isObject, Next(s, e))
  {
    StepKeepsWriters(isObject, s, e);
    forall p | p in Next(s, e).files && isObject(p) ensures Accounted(Next(s, e), p) {
      StepKeepsObjects(isObject, s, e, p);
    }
  }

  lemma {:induction false} RunKeepsInv(isObject: string -> bool, s: State, steps: seq<Step>)
    requires Inv(isObject, s)
    requires forall i :: 0 <= i < |steps| ==> Proper(isObject, steps[i])
    ensures Inv(isObject, Run(s, steps))
  {
    if steps != [] {
      RunKeepsInv(isObject, s, steps[..|steps| - 1]);
      StepKeepsInv(isObject, Run(s, steps[..|steps| - 1]), steps[|steps| - 1]);
    }
  }

  // The names that CreateTemp makes.
  ghost predicate TempShaped(p: string) { exists dst: string, n: nat :: n < TWO_64 && p == TempPath(dst, n) }

  lemma ObjectsAreNotTemps(p: string)
    requires ObjectPath(p)
    ensures !TempShaped(p)
  {
    hide ObjectPath, TempPath;
    forall dst: string, n: nat | n < TWO_64 && p == TempPath(dst, n) ensures false {
      TempIsNoObject(dst, n);
    }
  }

  ghost function NotTemp(): string -> bool { (p: string) => !TempShaped(p) }

  // A step of the running driver: destinations, which a capability may choose
  // freely, and deleted paths are not shaped like temp names; temp names are the
  // ones CreateTemp makes beside the destination.
  ghost predicate DriverStep(e: Step)
  {
    match e
    case OpenTemp(w, dst, tmp, maxSize) =>
      && !TempShaped(dst) && (exists n: nat :: n < TWO_64 && tmp == TempPath(dst, n))
      && IsInt64(maxSize) && maxSize != MAX_INT64
    case Remove(p) => !TempShaped(p)
    case _ => true
  }

  lemma DriverStepProper(e: Step)
    requires DriverStep(e)
    ensures Proper(NotTemp(), e)
  {
    hide TempPath;
    if e.OpenTemp? {
      var n: nat :| n < TWO_64 && e.tmp == TempPath(e.dst, n);
      assert TempShaped(e.tmp);
    }
  }

  // In every reachable state, under any interleaving, what stands at a path that
  // is no temp name is the complete body of one accepted write to that path.
  lemma WholeOrAbsent(steps: seq<Step>)
    requires forall i :: 0 <= i < |steps| ==> DriverStep(steps[i])
    ensures forall p :: p in Run(EMPTY, steps).files && !TempShaped(p) ==> Accounted(Run(EMPTY, steps), p)
  {
    hide TempShaped, DriverStep, Proper;
    forall i | 0 <= i < |steps| ensures Proper(NotTemp(), steps[i]) {
      DriverStepProper(steps[i]);
    }
    RunKeepsInv(NotTemp(), EMPTY, steps);
    var s := Run(EMPTY, steps);
    forall p | p in s.files && !TempShaped(p) ensures Accounted(s, p) {
      assert NotTemp()(p);
    }
  }

  // ------------------------------------------- a machine that writes at once

  datatype Effect = Put(path: string, body: Bytes, maxSize: int) | Del(path: string)

  // What a step does to the objects: a rename of a body that fits, or a delete.
  function EffectOf(s: State, e: Step): seq<Effect>
  {
    if e.Close? && e.w in s.writers && s.writers[e.w].tmp in s.files
       && Fits(s.writers[e.w].maxSize, s.files[s.writers[e.w].tmp])
    then [Put(s.writers[e.w].dst, s.writers[e.w].sent, s.writers[e.w].maxSize)]
    else if e.Remove? then [Del(e.p)]
    else []
  }

  function Effects(s: State, steps: seq<Step>): seq<Effect>
  {
    if steps == [] then []
    else Effects(s, steps[..|steps| - 1]) + EffectOf(Run(s, steps[..|steps| - 1]), steps[|steps| - 1])
  }

  function AppliedOne(objects: map<string, Bytes>, e: Effect): map<string, Bytes>
  {
    if e.Put? then objects[e.path := e.body] else objects - {e.path}
  }

  function Applied(objects: map<string, Bytes>, es: seq<Effect>): map<string, Bytes>
  {
    if es == [] then objects else AppliedOne(Applied(objects, es[..|es| - 1]), es[|es| - 1])
  }

  function Objects(isObject: string -> bool, s: State): map<string, Bytes>
  {
    map p | p in s.files && isObject(p) :: s.files[p]
  }

  lemma AppliedSnoc(objects: map<string, Bytes>, es: seq<Effect>, e: Effect)
    ensures Applied(objects, es + [e]) == AppliedOne(Applied(objects, es), e)
  {
    assert (es + [e])[..|es + [e]| - 1] == es;
  }

  lemma StepRefines(isObject: string -> bool, s: State, e: Step, objects: map<string, Bytes>, es: seq<Effect>)
    requires Inv(isObject, s) && Proper(isObject, e) && Objects(isObject, s) == Applied(objects, es)
    ensures Objects(isObject, Next(s, e)) == Applied(objects, es + EffectOf(s, e))
  {
    hide Applied, Accounted;
    var o, t := Objects(isObject, s), Next(s, e);
    match e
    case Close(w) =>
      if w in s.writers {
        var x := s.writers[w];
        assert WriterOk(isObject, s, x);
        if Fits(x.maxSize, s.files[x.tmp]) {
          AppliedSnoc(objects, es, Put(x.dst, x.sent, x.maxSize));
          assert Objects(isObject, t) == o[x.dst := x.sent];
        } else {
          assert Objects(isObject, t) == o && es + [] == es;
        }
      } else {
        assert es + [] == es;
      }
    case Remove(p) =>
      AppliedSnoc(objects, es, Del(p));
      assert Objects(isObject, t) == o - {p};
    case Deliver(w, _) =>
      if w in s.writers { assert WriterOk(isObject, s, s.writers[w]); }
      assert Objects(isObject, t) == o && es + [] == es;
    case Break(w) =>
      if w in s.writers { assert WriterOk(isObject, s, s.writers[w]); }
      assert Objects(isObject, t) == o && es + [] == es;
    case OpenTemp(_, _, _, _) => assert Objects(isObject, t) == o && es + [] == es;
    case Crash(_) => assert Objects(isObject, t) == o && es + [] == es;
  }

  // Refinement: under every interleaving the objects are those of a machine that
  // writes each body at once, when its writer renames, and deletes at once.
  lemma {:induction false} RunRefines(isObject: string -> bool, s: State, steps: seq<Step>)
    requires Inv(isObject, s)
    requires forall i :: 0 <= i < |steps| ==> Proper(isObject, steps[i])
    ensures Objects(isObject, Run(s, steps)) == Applied(Objects(isObject, s), Effects(s, steps))
    decreases |steps|
  {
    hide Next, EffectOf, Objects, Inv, Proper;
    if steps != [] {
      var before := steps[..|steps| - 1];
      RunRefines(isObject, s, before);
      RunKeepsInv(isObject, s, before);
      StepRefines(isObject, Run(s, before), steps[|steps| - 1], Objects(isObject, s), Effects(s, before));
    }
  }

  // And each of those writes is one that the gateway's single steps make: its
  // body is the outcome of the whole body that was sent.
  lemma {:induction false} EffectsAreOutcomes(isObject: string -> bool, s: State, steps: seq<Step>,
                                              e: Effect, r: Reader)
    requires Inv(isObject, s)
    requires forall i :: 0 <= i < |steps| ==> Proper(isObject, steps[i])
    requires e in Effects(s, steps) && e.Put? && Body(r.chunks) == e.body && !r.fails
    ensures isObject(e.path) && Outcome(e.maxSize, r) == Ok(e.body)
    decreases |steps|
  {
    hide Next;
    var before, last := steps[..|steps| - 1], steps[|steps| - 1];
    RunKeepsInv(isObject, s, before);
    if e in Effects(s, before) {
      EffectsAreOutcomes(isObject, s, before, e, r);
    } else {
      assert e in EffectOf(Run(s, before), last);
      OneOutcome(isObject, Run(s, before), last, e, r);
    }
  }

  lemma OneOutcome(isObject: string -> bool, s: State, last: Step, e: Effect, r: Reader)
    requires Inv(isObject, s) && e in EffectOf(s, last) && e.Put? && Body(r.chunks) == e.body && !r.fails
    ensures isObject(e.path) && Outcome(e.maxSize, r) == Ok(e.body)
  {
    assert WriterOk(isObject, s, s.writers[last.w]);
  }

  // Only a Close whose body fits, or a Remove of that very path, changes what
  // stands at an object path; an over-long body leaves it as it was.
  lemma OnlyCloseAndRemoveShow(isObject: string -> bool, s: State, e: Step, p: string)
    requires Inv(isObject, s) && Proper(isObject, e) && isObject(p)
    requires (p in s.files) != (p in Next(s, e).files) || (p in s.files && s.files[p] != Next(s, e).files[p])
    ensures e == Remove(p) ||
            (e.Close? && e.w in s.writers && s.writers[e.w].dst == p
             && (s.writers[e.w].maxSize > 0 ==> |s.writers[e.w].sent| <= s.writers[e.w].maxSize)
             && p in Next(s, e).files && Next(s, e).files[p] == s.writers[e.w].sent)
  {
    if (e.Close? || e.Deliver? || e.Break?) && e.w in s.writers {
      assert WriterOk(isObject, s, s.writers[e.w]);
    }
  }

  // The steps of one writer that nobody disturbs.
  function Delivers(w: nat, chunks: seq<Bytes>): seq<Step>
  {
    if chunks == [] then [] else Delivers(w, chunks[..|chunks| - 1]) + [Deliver(w, chunks[|chunks| - 1])]
  }

  function Solo(w: nat, dst: string, tmp: string, maxSize: int, chunks: seq<Bytes>): seq<Step>
  {
    [OpenTemp(w, dst, tmp, maxSize)] + Delivers(w, chunks)
  }

  lemma RunSnoc(s: State, steps: seq<Step>, e: Step)
    ensures Run(s, steps + [e]) == Next(Run(s, steps), e)
    ensures Run(s, []) == s
  {
    hide Next;
    assert (steps + [e])[..|steps + [e]| - 1] == steps;
  }

  lemma {:induction false} SoloCopies(s: State, w: nat, dst: string, tmp: string, maxSize: int, chunks: seq<Bytes>)
    requires w !in s.writers && tmp !in s.files
    ensures Run(s, Solo(w, dst, tmp, maxSize, chunks))
            == s.(files := s.files[tmp := Copied(ByteLimit(maxSize), Body(chunks))],
                  writers := s.writers[w := Writer(dst, tmp, maxSize, Body(chunks))])
  {
    if chunks == [] {
      RunSnoc(s, [], OpenTemp(w, dst, tmp, maxSize));
      assert Solo(w, dst, tmp, maxSize, []) == [] + [OpenTemp(w, dst, tmp, maxSize)];
      assert Copied(ByteLimit(maxSize), []) == [];
    } else {
      var before, last := chunks[..|chunks| - 1], chunks[|chunks| - 1];
      SoloCopies(s, w, dst, tmp, maxSize, before);
      RunSnoc(s, Solo(w, dst, tmp, maxSize, before), Deliver(w, last));
      assert Solo(w, dst, tmp, maxSize, chunks) == Solo(w, dst, tmp, maxSize, before) + [Deliver(w, last)];
    }
  }

  // Undisturbed, the machine's writer does what Disk.WriteObject does, whether or
  // not its reader fails: the outcome's bytes at the destination and no temp
  // file, or nothing at all.
  lemma SoloWriteIsOutcome(s: State, w: nat, dst: string, tmp: string, maxSize: int, r: Reader)
    requires w !in s.writers && tmp !in s.files && tmp != dst
    ensures var end := if SeesFailure(maxSize, r) then Break(w) else Close(w);
            Run(s, Solo(w, dst, tmp, maxSize, r.chunks) + [end]).files
            == if Outcome(maxSize, r).Ok? then s.files[dst := Outcome(maxSize, r).value] else s.files
  {
    SoloCopies(s, w, dst, tmp, maxSize, r.chunks);
    RunSnoc(s, Solo(w, dst, tmp, maxSize, r.chunks), if SeesFailure(maxSize, r) then Break(w) else Close(w));
    hide Run;
    var content := Copied(ByteLimit(maxSize), Body(r.chunks));
    assert s.files[tmp := content] - {tmp} == s.files;
  }
}
