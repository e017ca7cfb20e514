/** Runs of the spawner: any interleaving of mouse events, calls of the
    creation routine, eviction timers and frames, and what such a run
    creates and evicts.  A frame callback re-entering the creation routine
    (`Retry`) may arrive at any time, which also covers several overlapping
    chains of such callbacks. */
module SpawnTrace {
  import opened Geometry
  import opened SpawnState

  datatype Event =
    | MouseDown(now: int, cached: bool, point: Vec3)
    | MouseUp
    | Retry(now: int, cached: bool, point: Vec3)
    | TimerFires(now: int)
    | Frame(motions: seq<Motion>)   // physics step with the engine's results, then mesh sync

  /** A pair as created: its serial and the time of its creation. */
  datatype Entry = Entry(id: nat, created: int)

  /** A pair as evicted, and the time its timer fired. */
  datatype Eviction = Eviction(entry: Entry, at: int)

  /** Whether the host can deliver `e` now: a timer fires only once armed and
      not before its deadline, and the physics engine moves every body. */
  predicate Enabled(s: State, e: Event) {
    match e
    case TimerFires(now) => s.timers != [] && s.timers[0] <= now
    case Frame(motions) => |motions| == |s.bodies| && |s.meshes| <= |s.bodies|
    case _ => true
  }

  /** The pool the creation routine sees when `e` calls it. */
  function Caller(s: State, e: Event): State {
    if e.MouseDown? then Press(s) else s
  }

  predicate CallsCreate(e: Event) {
    e.MouseDown? || e.Retry?
  }

  function Step(s: State, e: Event): State
    requires Enabled(s, e)
  {
    match e
    case MouseDown(now, cached, point) => Attempt(Press(s), now, cached, point)
    case MouseUp => Release(s)
    case Retry(now, cached, point) => Attempt(s, now, cached, point)
    case TimerFires(_) => Evict(s)
    case Frame(motions) => Synced(Stepped(s, motions))
  }

  /** The time of `e` if it is an accepted creation attempt. */
  function Accepts(s: State, e: Event): seq<int> {
    if CallsCreate(e) && Classify(Caller(s, e), e.now, e.cached) in {ModelMissing, Created}
    then [e.now] else []
  }

  /** The pair `e` creates, if any. */
  function Creates(s: State, e: Event): seq<Entry> {
    if CallsCreate(e) && Classify(Caller(s, e), e.now, e.cached) == Created
    then [Entry(s.nextId, e.now)] else []
  }

  /** The pair `e` evicts, if any. */
  function Evicts(s: State, e: Event): seq<Eviction>
    requires Enabled(s, e)
  {
    if e.TimerFires? && |s.meshes| > 0
    then [Eviction(Entry(s.meshes[0].id, s.timers[0] - Lifetime), e.now)] else []
  }

  /** The pairs in the pool, oldest first, each with the time its timer was armed. */
  function Pending(s: State): seq<Entry>
    requires |s.meshes| <= |s.timers|
  {
    seq(|s.meshes|, i requires 0 <= i < |s.meshes| => Entry(s.meshes[i].id, s.timers[i] - Lifetime))
  }

  function Entries(evictions: seq<Eviction>): seq<Entry> {
    seq(|evictions|, i requires 0 <= i < |evictions| => evictions[i].entry)
  }

  predicate Legal(s: State, evs: seq<Event>)
    decreases |evs|
  {
    evs == [] || (Enabled(s, evs[0]) && Legal(Step(s, evs[0]), evs[1..]))
  }

  function Run(s: State, evs: seq<Event>): State
    requires Legal(s, evs)
    decreases |evs|
  {
    if evs == [] then s else Run(Step(s, evs[0]), evs[1..])
  }

  /** The times of the accepted creation attempts of a run, in order. */
  function Accepted(s: State, evs: seq<Event>): seq<int>
    requires Legal(s, evs)
    decreases |evs|
  {
    if evs == [] then [] else Accepts(s, evs[0]) + Accepted(Step(s, evs[0]), evs[1..])
  }

  /** The pairs created by a run, in order. */
  function Creations(s: State, evs: seq<Event>): seq<Entry>
    requires Legal(s, evs)
    decreases |evs|
  {
    if evs == [] then [] else Creates(s, evs[0]) + Creations(Step(s, evs[0]), evs[1..])
  }

  /** The pairs evicted by a run, in order. */
  function Evictions(s: State, evs: seq<Event>): seq<Eviction>
    requires Legal(s, evs)
    decreases |evs|
  {
    if evs == [] then [] else Evicts(s, evs[0]) + Evictions(Step(s, evs[0]), evs[1..])
  }

  // ---------------------------------------------------------------------
  // Invariant

  lemma StepPreservesValid(s: State, e: Event)
    requires Valid(s) && Enabled(s, e)
    ensures Valid(Step(s, e))
  {
    match e
    case MouseDown(now, cached, point) => AttemptPreservesValid(Press(s), now, cached, point);
    case MouseUp =>
    case Retry(now, cached, point) => AttemptPreservesValid(s, now, cached, point);
    case TimerFires(_) => EvictPreservesValid(s);
    case Frame(motions) => SteppedSyncedPreservesValid(s, motions);
  }

  /** Along every run the two queues stay equally long and aligned pair by
      pair, each pair with exactly one armed timer. */
  lemma {:induction false} RunPreservesValid(s: State, evs: seq<Event>)
    requires Valid(s) && Legal(s, evs)
    ensures Valid(Run(s, evs))
    ensures |Run(s, evs).meshes| == |Run(s, evs).bodies| == |Run(s, evs).timers|
    decreases |evs|
  {
    if evs != [] {
      StepPreservesValid(s, evs[0]);
      RunPreservesValid(Step(s, evs[0]), evs[1..]);
    }
  }

  // ---------------------------------------------------------------------
  // FIFO eviction

  lemma AttemptPending(s: State, now: int, cached: bool, point: Vec3)
    requires Aligned(s)
    ensures Aligned(Attempt(s, now, cached, point))
    ensures Pending(Attempt(s, now, cached, point)) ==
      Pending(s) + (if Classify(s, now, cached) == Created then [Entry(s.nextId, now)] else [])
  {
    var t := Attempt(s, now, cached, point);
    if Classify(s, now, cached) == Created {
      assert Pending(t) == Pending(s) + [Entry(s.nextId, now)];
    }
  }

  lemma EvictPending(s: State)
    requires Aligned(s) && s.timers != []
    ensures Aligned(Evict(s))
    ensures Pending(s) == [Entry(s.meshes[0].id, s.timers[0] - Lifetime)] + Pending(Evict(s))
  {
    assert Pending(s) == [Pending(s)[0]] + Pending(Evict(s));
  }

  lemma FramePending(s: State, motions: seq<Motion>)
    requires Aligned(s) && |motions| == |s.bodies|
    ensures Aligned(Synced(Stepped(s, motions)))
    ensures Pending(Synced(Stepped(s, motions))) == Pending(s)
  {
  }

  lemma StepIsFifo(s: State, e: Event)
    requires Aligned(s) && Enabled(s, e)
    ensures Aligned(Step(s, e))
    ensures Entries(Evicts(s, e)) + Pending(Step(s, e)) == Pending(s) + Creates(s, e)
  {
    match e
    case MouseDown(now, cached, point) => AttemptPending(Press(s), now, cached, point);
    case MouseUp =>
    case Retry(now, cached, point) => AttemptPending(s, now, cached, point);
    case TimerFires(_) => EvictPending(s);
    case Frame(motions) => FramePending(s, motions);
  }

  lemma EntriesAppend(a: seq<Eviction>, b: seq<Eviction>)
    ensures Entries(a + b) == Entries(a) + Entries(b)
  {
  }

  lemma Splice(e1: seq<Entry>, er: seq<Entry>, pr: seq<Entry>, pt: seq<Entry>, cr: seq<Entry>, ps: seq<Entry>, c1: seq<Entry>)
    requires er + pr == pt + cr && e1 + pt == ps + c1
    ensures e1 + er + pr == ps + c1 + cr
  {
    calc {
      e1 + er + pr;
      e1 + (er + pr);
      e1 + (pt + cr);
      (e1 + pt) + cr;
    }
  }

  /** Whatever a run evicts, followed by what is still pooled, is exactly
      what was pooled before followed by what the run created, in order:
      pairs leave the pool in the order they entered it, and only through
      eviction. */
  lemma {:induction false} EvictionIsFifo(s: State, evs: seq<Event>)
    requires Aligned(s) && Legal(s, evs)
    ensures Aligned(Run(s, evs))
    ensures Entries(Evictions(s, evs)) + Pending(Run(s, evs)) == Pending(s) + Creations(s, evs)
    decreases |evs|
  {
    if evs != [] {
      var e, rest := evs[0], evs[1..];
      var t := Step(s, e);
      StepIsFifo(s, e);
      EvictionIsFifo(t, rest);
      EntriesAppend(Evicts(s, e), Evictions(t, rest));
      var e1, er, pr := Entries(Evicts(s, e)), Entries(Evictions(t, rest)), Pending(Run(t, rest));
      var c1, cr := Creates(s, e), Creations(t, rest);
      assert Entries(Evictions(s, evs)) == e1 + er;
      assert Pending(Run(s, evs)) == pr;
      assert Creations(s, evs) == c1 + cr;
      Splice(e1, er, pr, Pending(t), cr, Pending(s), c1);
    }
  }

  /** Helper of EvictsOldestAfterLifetime: no timer firing in a run comes
      before the deadline of the timer it consumes.  This lifts the host's
      timer guarantee (the `Enabled` condition of `TimerFires`) over a run;
      the code itself contributes nothing here. */
  lemma {:induction false} EvictionsRespectLifetime(s: State, evs: seq<Event>)
    requires Legal(s, evs)
    ensures forall k :: 0 <= k < |Evictions(s, evs)| ==>
      Evictions(s, evs)[k].entry.created + Lifetime <= Evictions(s, evs)[k].at
    decreases |evs|
  {
    if evs != [] {
      EvictionsRespectLifetime(Step(s, evs[0]), evs[1..]);
    }
  }

  /** From page load: the k-th eviction removes the k-th pair created, and
      does so no earlier than Lifetime after that pair was created. */
  lemma EvictsOldestAfterLifetime(evs: seq<Event>)
    requires Legal(Init(), evs)
    ensures |Evictions(Init(), evs)| <= |Creations(Init(), evs)|
    ensures forall k :: 0 <= k < |Evictions(Init(), evs)| ==>
      && Evictions(Init(), evs)[k].entry == Creations(Init(), evs)[k]
      && Creations(Init(), evs)[k].created + Lifetime <= Evictions(Init(), evs)[k].at
  {
    EvictionIsFifo(Init(), evs);
    EvictionsRespectLifetime(Init(), evs);
    var ev := Evictions(Init(), evs);
    assert Pending(Init()) == [];
    assert Entries(ev) + Pending(Run(Init(), evs)) == Creations(Init(), evs);
    forall k | 0 <= k < |ev|
      ensures ev[k].entry == Creations(Init(), evs)[k]
    {
      assert Entries(ev)[k] == ev[k].entry;
    }
  }

  // ---------------------------------------------------------------------
  // Rate limit

  /** Accepted attempts come at least CreationDelay after the clock the run
      started from and at least CreationDelay apart from each other, whatever
      the interleaving of events, even if the clock itself jumps back. */
  lemma {:induction false} AcceptedAreSpaced(s: State, evs: seq<Event>)
    requires Legal(s, evs)
    ensures s.lastCreationTime <= Run(s, evs).lastCreationTime
    ensures forall i :: 0 <= i < |Accepted(s, evs)| ==>
      s.lastCreationTime + CreationDelay <= Accepted(s, evs)[i] <= Run(s, evs).lastCreationTime
    ensures forall i, j :: 0 <= i < j < |Accepted(s, evs)| ==>
      Accepted(s, evs)[i] + CreationDelay <= Accepted(s, evs)[j]
    decreases |evs|
  {
    if evs != [] {
      var t := Step(s, evs[0]);
      AcceptedAreSpaced(t, evs[1..]);
      assert Accepts(s, evs[0]) != [] ==> t.lastCreationTime == evs[0].now;
      assert Accepts(s, evs[0]) == [] ==> t.lastCreationTime == s.lastCreationTime;
    }
  }

  /** Every pair created by a run was created by an accepted attempt, so a
      run creates no more pairs than it accepts attempts. */
  lemma {:induction false} CreationsAreAccepted(s: State, evs: seq<Event>)
    requires Legal(s, evs)
    ensures forall k :: 0 <= k < |Creations(s, evs)| ==> Creations(s, evs)[k].created in Accepted(s, evs)
    ensures |Creations(s, evs)| <= |Accepted(s, evs)|
    decreases |evs|
  {
    if evs != [] {
      CreationsAreAccepted(Step(s, evs[0]), evs[1..]);
    }
  }

  /** Pairs are created at least CreationDelay after the clock the run
      started from and at least CreationDelay apart from each other: no
      100 ms window sees two of them. */
  lemma {:induction false} CreationsAreSpaced(s: State, evs: seq<Event>)
    requires Legal(s, evs)
    ensures forall i :: 0 <= i < |Creations(s, evs)| ==>
      s.lastCreationTime + CreationDelay <= Creations(s, evs)[i].created <= Run(s, evs).lastCreationTime
    ensures forall i, j :: 0 <= i < j < |Creations(s, evs)| ==>
      Creations(s, evs)[i].created + CreationDelay <= Creations(s, evs)[j].created
    decreases |evs|
  {
    if evs != [] {
      var t := Step(s, evs[0]);
      CreationsAreSpaced(t, evs[1..]);
      AcceptedAreSpaced(t, evs[1..]);
      assert Creates(s, evs[0]) != [] ==> t.lastCreationTime == evs[0].now >= s.lastCreationTime + CreationDelay;
      assert Creates(s, evs[0]) == [] ==> s.lastCreationTime <= t.lastCreationTime;
    }
  }

  lemma {:induction false} SpacedSpan(a: seq<int>, k: nat)
    requires forall i, j :: 0 <= i < j < |a| ==> a[i] + CreationDelay <= a[j]
    requires k < |a|
    ensures a[0] + CreationDelay * k <= a[k]
  {
    if k > 0 {
      SpacedSpan(a, k - 1);
    }
  }

  /** However often the creation routine is called, a run whose accepted
      attempts all fall within [t0, t1] accepts at most one per
      CreationDelay of that span, plus one. */
  lemma AcceptedWithinSpan(s: State, evs: seq<Event>, t0: int, t1: int)
    requires Legal(s, evs)
    requires forall i :: 0 <= i < |Accepted(s, evs)| ==> t0 <= Accepted(s, evs)[i] <= t1
    ensures CreationDelay * (|Accepted(s, evs)| - 1) <= t1 - t0 || Accepted(s, evs) == []
  {
    var a := Accepted(s, evs);
    if a != [] {
      AcceptedAreSpaced(s, evs);
      SpacedSpan(a, |a| - 1);
    }
  }

  /** Holding the trigger for 1050 ms yields at most 11 accepted attempts,
      hence at most 11 pairs. */
  lemma HoldFor1050ms(s: State, evs: seq<Event>, t0: int)
    requires Legal(s, evs)
    requires forall i :: 0 <= i < |Accepted(s, evs)| ==> t0 <= Accepted(s, evs)[i] <= t0 + 1050
    ensures |Accepted(s, evs)| <= 11
    ensures |Creations(s, evs)| <= 11
  {
    AcceptedWithinSpan(s, evs, t0, t0 + 1050);
    CreationsAreAccepted(s, evs);
  }
}
