/** The blocking queue of `lockqueue.hpp` as a monitor protocol. Every interleaving of any number of
    threads is a list of events; an event is one atomic action of one thread. */
module LockQueue {
  import opened Wrappers

  type Tid = nat

  datatype Call<T> = Pop | Front | Push(item: T)

  /** Where a thread stands. `woken` remembers that it has slept in this call. */
  datatype Pc<T> =
    | Idle
    | Wants(call: Call<T>)
    | Holds(call: Call<T>, woken: bool)
    | Sleeps(call: Call<T>)
    | Woken(call: Call<T>)
    | MustNotify

  /** pushed, popped and absorbed are history: what was pushed, what was popped, and how often a woken
      `front` call went away without taking anything. */
  datatype State<T> = State(
    queue: seq<T>, owner: Option<Tid>, pc: map<Tid, Pc<T>>,
    pushed: seq<T>, popped: seq<T>, absorbed: nat)

  datatype Event<T> =
    | Begin(t: Tid, call: Call<T>)
    | Acquire(t: Tid)          // lock, on entry or when waking up
    | Sleep(t: Tid)            // the queue is empty: release the lock and wait, in one action
    | Take(t: Tid)             // pop and unlock
    | Peek(t: Tid)             // front and unlock
    | PushUnlock(t: Tid)       // push and unlock
    | NotifyNobody(t: Tid)     // notify_one, nobody waits
    | Notify(t: Tid, u: Tid)   // notify_one wakes u
    | Spurious(u: Tid)         // u wakes up unasked

  function Sleepers<T>(s: State<T>): set<Tid> {
    set t | t in s.pc && s.pc[t].Sleeps?
  }

  /** Threads between unlock and notify. */
  function Notifiers<T>(s: State<T>): set<Tid> {
    set t | t in s.pc && s.pc[t].MustNotify?
  }

  /** Threads that were woken and have not yet run. */
  function Wakers<T>(s: State<T>): set<Tid> {
    set t | t in s.pc && Waking(s.pc[t])
  }

  predicate Enabled<T>(s: State<T>, e: Event<T>) {
    match e
    case Begin(t, _) => t in s.pc && s.pc[t].Idle?
    case Acquire(t) => t in s.pc && (s.pc[t].Wants? || s.pc[t].Woken?) && s.owner.None?
    case Sleep(t) => t in s.pc && s.pc[t].Holds? && !s.pc[t].call.Push? && s.queue == []
    case Take(t) => t in s.pc && s.pc[t].Holds? && s.pc[t].call.Pop? && s.queue != []
    case Peek(t) => t in s.pc && s.pc[t].Holds? && s.pc[t].call.Front? && s.queue != []
    case PushUnlock(t) => t in s.pc && s.pc[t].Holds? && s.pc[t].call.Push?
    case NotifyNobody(t) => t in s.pc && s.pc[t].MustNotify? && Sleepers(s) == {}
    case Notify(t, u) => t in s.pc && s.pc[t].MustNotify? && u in s.pc && s.pc[u].Sleeps?
    case Spurious(u) => u in s.pc && s.pc[u].Sleeps?
  }

  function Apply<T>(s: State<T>, e: Event<T>): State<T>
    requires Enabled(s, e)
  {
    match e
    case Begin(t, call) => s.(pc := s.pc[t := Wants(call)])
    case Acquire(t) => s.(owner := Some(t), pc := s.pc[t := Holds(s.pc[t].call, s.pc[t].Woken?)])
    case Sleep(t) => s.(owner := None, pc := s.pc[t := Sleeps(s.pc[t].call)])
    case Take(t) =>
      s.(owner := None, pc := s.pc[t := Idle], queue := s.queue[1..], popped := s.popped + [s.queue[0]])
    case Peek(t) =>
      s.(owner := None, pc := s.pc[t := Idle], absorbed := if s.pc[t].woken then s.absorbed + 1 else s.absorbed)
    case PushUnlock(t) =>
      s.(owner := None, pc := s.pc[t := MustNotify],
         queue := s.queue + [s.pc[t].call.item], pushed := s.pushed + [s.pc[t].call.item])
    case NotifyNobody(t) => s.(pc := s.pc[t := Idle])
    case Notify(t, u) => s.(pc := s.pc[t := Idle][u := Woken(s.pc[u].call)])
    case Spurious(u) => s.(pc := s.pc[u := Woken(s.pc[u].call)])
  }

  predicate Possible<T>(s: State<T>, run: seq<Event<T>>)
    decreases |run|
  {
    run != [] ==> Enabled(s, run[0]) && Possible(Apply(s, run[0]), run[1..])
  }

  function After<T>(s: State<T>, run: seq<Event<T>>): State<T>
    requires Possible(s, run)
    decreases |run|
  {
    if run == [] then s else After(Apply(s, run[0]), run[1..])
  }

  predicate Initial<T>(s: State<T>) {
    && s.queue == [] && s.owner.None? && s.pushed == [] && s.popped == [] && s.absorbed == 0
    && forall t | t in s.pc :: s.pc[t].Idle?
  }

  // ---------- safety ----------

  /** The lock is held by the one thread that is inside, a pushing call never waits, and what was
      pushed is what was popped followed by what is queued, in order. */
  ghost predicate Safe<T>(s: State<T>) {
    && (forall t | t in s.pc :: s.pc[t].Holds? <==> s.owner == Some(t))
    && (s.owner.Some? ==> s.owner.value in s.pc)
    && (forall t | t in s.pc && (s.pc[t].Sleeps? || s.pc[t].Woken?) :: !s.pc[t].call.Push?)
    && (forall t | t in s.pc && s.pc[t].Holds? :: s.pc[t].call.Push? ==> !s.pc[t].woken)
    && s.pushed == s.popped + s.queue
  }

  /** While anyone sleeps, every queued item is accounted for: a notification is still to come, or a
      woken thread is still to run, or a `front` call used the notification up. */
  predicate NoLostWakeUp<T>(s: State<T>) {
    Sleepers(s) != {} ==> |s.queue| <= |Notifiers(s)| + |Wakers(s)| + s.absorbed
  }

  lemma SafeStep<T>(s: State<T>, e: Event<T>)
    requires Safe(s) && Enabled(s, e)
    ensures Safe(Apply(s, e))
  {
  }

  predicate Waking<T>(p: Pc<T>) {
    p.Woken? || (p.Holds? && p.woken)
  }

  /** Notifications and woken threads under way that a thread in this place stands for. */
  function Weight<T>(p: Pc<T>): nat {
    if p.MustNotify? || Waking(p) then 1 else 0
  }

  lemma NotifiersOfMove<T>(s: State<T>, t: Tid, p: Pc<T>)
    requires t in s.pc
    ensures Notifiers(s.(pc := s.pc[t := p])) == if p.MustNotify? then Notifiers(s) + {t} else Notifiers(s) - {t}
  {
    var s' := s.(pc := s.pc[t := p]);
    forall u ensures u in Notifiers(s') <==> if u == t then p.MustNotify? else u in Notifiers(s) {
      assert u != t && u in s.pc ==> s'.pc[u] == s.pc[u];
    }
  }

  lemma WakersOfMove<T>(s: State<T>, t: Tid, p: Pc<T>)
    requires t in s.pc
    ensures Wakers(s.(pc := s.pc[t := p])) == if Waking(p) then Wakers(s) + {t} else Wakers(s) - {t}
  {
    var s' := s.(pc := s.pc[t := p]);
    forall u ensures u in Wakers(s') <==> if u == t then Waking(p) else u in Wakers(s) {
      assert u != t && u in s.pc ==> s'.pc[u] == s.pc[u];
    }
  }

  lemma SleepersOfMove<T>(s: State<T>, t: Tid, p: Pc<T>)
    requires t in s.pc && !p.Sleeps?
    ensures Sleepers(s.(pc := s.pc[t := p])) <= Sleepers(s)
  {
    var s' := s.(pc := s.pc[t := p]);
    forall u | u in Sleepers(s') ensures u in Sleepers(s) {
      assert u != t ==> s'.pc[u] == s.pc[u];
    }
  }

  function One(b: bool): nat {
    if b then 1 else 0
  }

  lemma SizeOfMove(a: set<Tid>, t: Tid, b: set<Tid>, inside: bool)
    requires b == if inside then a + {t} else a - {t}
    ensures |b| == |a| + One(inside) - One(t in a)
  {
    if t in a {
      assert a == (a - {t}) + {t};
      assert |a| == |a - {t}| + 1;
      if inside { assert b == a; }
    } else {
      assert a - {t} == a;
      if inside { assert |a + {t}| == |a| + 1; }
    }
  }

  /** One thread changes places: the count of what is under way changes by its weight alone. */
  lemma WeightOfMove<T>(s: State<T>, t: Tid, p: Pc<T>)
    requires t in s.pc
    ensures var s' := s.(pc := s.pc[t := p]);
      && |Notifiers(s')| + |Wakers(s')| == |Notifiers(s)| + |Wakers(s)| + Weight(p) - Weight(s.pc[t])
      && (p.Sleeps? || Sleepers(s') <= Sleepers(s))
  {
    var s' := s.(pc := s.pc[t := p]);
    NotifiersOfMove(s, t, p);
    WakersOfMove(s, t, p);
    SizeOfMove(Notifiers(s), t, Notifiers(s'), p.MustNotify?);
    SizeOfMove(Wakers(s), t, Wakers(s'), Waking(p));
    assert t in Notifiers(s) <==> s.pc[t].MustNotify?;
    assert t in Wakers(s) <==> Waking(s.pc[t]);
    if !p.Sleeps? { SleepersOfMove(s, t, p); }
  }

  lemma NotifyStep<T>(s: State<T>, t: Tid, u: Tid)
    requires NoLostWakeUp(s) && Enabled(s, Notify(t, u))
    ensures NoLostWakeUp(Apply(s, Notify(t, u)))
  {
    WeightOfMove(s, t, Idle);
    WeightOfMove(s.(pc := s.pc[t := Idle]), u, Woken(s.pc[u].call));
    assert u in Sleepers(s);
  }

  lemma NoLostWakeUpStep<T>(s: State<T>, e: Event<T>)
    requires Safe(s) && NoLostWakeUp(s) && Enabled(s, e)
    ensures NoLostWakeUp(Apply(s, e))
  {
    match e
    case Begin(t, call) => WeightOfMove(s, t, Wants(call));
    case Acquire(t) => WeightOfMove(s, t, Holds(s.pc[t].call, s.pc[t].Woken?));
    case Sleep(t) =>
    case Take(t) => WeightOfMove(s, t, Idle);
    case Peek(t) => WeightOfMove(s, t, Idle);
    case PushUnlock(t) => WeightOfMove(s, t, MustNotify);
    case NotifyNobody(t) => WeightOfMove(s, t, Idle);
    case Notify(t, u) => NotifyStep(s, t, u);
    case Spurious(u) =>
      WeightOfMove(s, u, Woken(s.pc[u].call));
      assert u in Sleepers(s);
  }

  lemma {:induction false} Preserved<T>(s: State<T>, run: seq<Event<T>>)
    requires Safe(s) && NoLostWakeUp(s) && Possible(s, run)
    ensures Safe(After(s, run)) && NoLostWakeUp(After(s, run))
    decreases |run|
  {
    if run != [] {
      SafeStep(s, run[0]);
      NoLostWakeUpStep(s, run[0]);
      Preserved(Apply(s, run[0]), run[1..]);
    }
  }

  /** In every reachable state, whatever the interleaving and however many spurious wake-ups. */
  lemma EveryReachableState<T>(s: State<T>, run: seq<Event<T>>)
    requires Initial(s) && Possible(s, run)
    ensures var r := After(s, run);
      && Safe(r) && NoLostWakeUp(r)
      && r.pushed == r.popped + r.queue
  {
    Preserved(s, run);
  }

  // ---------- consumers that only pop ----------

  predicate NoFront<T>(run: seq<Event<T>>) {
    forall i | 0 <= i < |run| :: run[i].Begin? ==> !run[i].call.Front?
  }

  predicate PopOnly<T>(s: State<T>) {
    && s.absorbed == 0
    && forall t | t in s.pc && !s.pc[t].Idle? && !s.pc[t].MustNotify? :: !s.pc[t].call.Front?
  }

  lemma {:induction false} PopOnlyPreserved<T>(s: State<T>, run: seq<Event<T>>)
    requires PopOnly(s) && Possible(s, run) && NoFront(run)
    ensures PopOnly(After(s, run))
    decreases |run|
  {
    if run != [] {
      var s' := Apply(s, run[0]);
      assert PopOnly(s');
      PopOnlyPreserved(s', run[1..]);
    }
  }

  /** When all consumers call `pop` nothing is ever absorbed: a sleeper means that no more items are
      queued than there are notifications under way and woken consumers still to run. */
  lemma NoLostWakeUpWithPopOnly<T>(s: State<T>, run: seq<Event<T>>)
    requires Initial(s) && Possible(s, run) && NoFront(run)
    ensures var r := After(s, run);
      PopOnly(r) && (Sleepers(r) != {} ==> |r.queue| <= |Notifiers(r)| + |Wakers(r)|)
  {
    EveryReachableState(s, run);
    PopOnlyPreserved(s, run);
  }

  // ---------- progress ----------

  predicate IsConsumer<T>(p: Pc<T>) {
    (p.Wants? || p.Holds? || p.Sleeps? || p.Woken?) && p.call.Pop?
  }

  lemma PossibleThen<T>(s: State<T>, e: Event<T>, run: seq<Event<T>>)
    requires Enabled(s, e) && Possible(Apply(s, e), run)
    ensures Possible(s, [e] + run) && After(s, [e] + run) == After(Apply(s, e), run)
  {
    assert ([e] + run)[1..] == run;
  }

  lemma TakeBy<T>(s: State<T>, t: Tid) returns (run: seq<Event<T>>)
    requires s.queue != [] && s.owner.None?
    requires t in s.pc && (s.pc[t].Wants? || s.pc[t].Woken?) && s.pc[t].call.Pop?
    ensures run == [Acquire(t)] + [Take(t)]
    ensures Possible(s, run) && After(s, run).popped == s.popped + [s.queue[0]]
  {
    var held := Apply(s, Acquire(t));
    PossibleThen(held, Take(t), []);
    assert [Event<T>.Take(t)] + [] == [Take(t)];
    PossibleThen(s, Acquire(t), [Take(t)]);
    run := [Acquire(t)] + [Take(t)];
  }

  /** With a free lock, a queued item and a consumer anywhere in `pop`, the item can be taken without
      waiting for any further push and without any spurious wake-up. */
  lemma TakenFromFreeLock<T>(s: State<T>, c: Tid) returns (run: seq<Event<T>>)
    requires Safe(s) && NoLostWakeUp(s) && PopOnly(s)
    requires s.queue != [] && s.owner.None? && c in s.pc && IsConsumer(s.pc[c])
    ensures Possible(s, run) && After(s, run).popped == s.popped + [s.queue[0]]
    ensures forall e | e in run :: e.Acquire? || e.Take? || e.Notify?
  {
    if s.pc[c].Wants? || s.pc[c].Woken? {
      run := TakeBy(s, c);
    } else {
      assert c in Sleepers(s);
      if Wakers(s) != {} {
        var w :| w in Wakers(s);
        run := TakeBy(s, w);
      } else {
        assert Notifiers(s) != {};
        var n :| n in Notifiers(s);
        var s' := Apply(s, Notify(n, c));
        var rest := TakeBy(s', c);
        PossibleThen(s, Notify(n, c), rest);
        run := [Notify(n, c)] + rest;
      }
    }
  }

  /** No new call, no falling asleep and no spurious wake-up. */
  ghost predicate ByThoseInside<T>(run: seq<Event<T>>) {
    forall e | e in run :: e.Acquire? || e.Take? || e.PushUnlock? || e.Notify?
  }

  /** No consumer is ever stuck: from every reachable state with a queued item and a consumer in `pop`
      there is a way on, by steps of the threads already inside, that pops the front item next. */
  lemma ItemCanAlwaysBeTaken<T>(s: State<T>, c: Tid) returns (run: seq<Event<T>>)
    requires Safe(s) && NoLostWakeUp(s) && PopOnly(s)
    requires s.queue != [] && c in s.pc && IsConsumer(s.pc[c])
    ensures Possible(s, run) && After(s, run).popped == s.popped + [s.queue[0]]
    ensures ByThoseInside(run)
  {
    if s.owner.None? {
      run := TakenFromFreeLock(s, c);
    } else {
      var t := s.owner.value;
      if s.pc[t].call.Pop? {
        PossibleThen(s, Take(t), []);
        run := [Take(t)] + [];
      } else {
        var e: Event<T> := PushUnlock(t);
        SafeStep(s, e);
        NoLostWakeUpStep(s, e);
        var s' := Apply(s, e);
        assert s'.queue[0] == s.queue[0];
        var rest := TakenFromFreeLock(s', c);
        PossibleThen(s, e, rest);
        run := [e] + rest;
      }
    }
  }

  /** The same, said of every interleaving that starts from an idle queue and never calls `front`. */
  lemma NeverStuckWithPopOnly<T>(s: State<T>, run: seq<Event<T>>, c: Tid)
    requires Initial(s) && Possible(s, run) && NoFront(run)
    requires var r := After(s, run); r.queue != [] && c in r.pc && IsConsumer(r.pc[c])
    ensures var r := After(s, run);
      exists more: seq<Event<T>> ::
        Possible(r, more) && ByThoseInside(more) && After(r, more).popped == r.popped + [r.queue[0]]
  {
    Preserved(s, run);
    PopOnlyPreserved(s, run);
    var more := ItemCanAlwaysBeTaken(After(s, run), c);
  }

  // ---------- how soon ----------

  /** Steps a thread in this place can still make, but for beginning a call, before an item is taken. */
  function Effort<T>(p: Pc<T>): nat {
    match p
    case Idle => 0
    case Wants(_) => 3
    case Holds(_, _) => 2
    case Sleeps(_) => 4
    case Woken(_) => 3
    case MustNotify => 1
  }

  /** The steps left to the threads below n. */
  function Work<T>(pc: map<Tid, Pc<T>>, n: nat): (w: nat)
    ensures w <= 4 * n
  {
    if n == 0 then 0 else Work(pc, n - 1) + if n - 1 in pc then Effort(pc[n - 1]) else 0
  }

  lemma {:induction false} WorkOfMove<T>(pc: map<Tid, Pc<T>>, t: Tid, p: Pc<T>, n: nat)
    requires t in pc
    ensures Work(pc[t := p], n) == Work(pc, n) + if t < n then Effort(p) - Effort(pc[t]) else 0
  {
    if n > 0 { WorkOfMove(pc, t, p, n - 1); }
  }

  function Begins<T>(run: seq<Event<T>>): nat {
    if run == [] then 0 else Begins(run[1..]) + if run[0].Begin? then 1 else 0
  }

  ghost predicate TakesItem<T>(run: seq<Event<T>>) {
    exists i | 0 <= i < |run| :: run[i].Take?
  }

  ghost predicate Below<T>(s: State<T>, n: nat) {
    forall t | t in s.pc :: t < n
  }

  lemma WorkOfNotify<T>(s: State<T>, t: Tid, u: Tid, n: nat)
    requires Enabled(s, Notify(t, u)) && Below(s, n)
    ensures Work(Apply(s, Notify(t, u)).pc, n) + 1 <= Work(s.pc, n)
  {
    WorkOfMove(s.pc, t, Idle, n);
    WorkOfMove(s.pc[t := Idle], u, Woken(s.pc[u].call), n);
  }

  /** Every step other than beginning a call and taking an item uses up work. */
  lemma WorkOfStep<T>(s: State<T>, e: Event<T>, n: nat)
    requires Enabled(s, e) && Below(s, n) && s.queue != [] && !e.Take?
    ensures var s' := Apply(s, e);
      && s'.queue != [] && Below(s', n)
      && Work(s'.pc, n) + 1 <= Work(s.pc, n) + if e.Begin? then 4 else 0
  {
    match e
    case Begin(t, call) => WorkOfMove(s.pc, t, Wants(call), n);
    case Acquire(t) => WorkOfMove(s.pc, t, Holds(s.pc[t].call, s.pc[t].Woken?), n);
    case Sleep(t) =>
    case Peek(t) => WorkOfMove(s.pc, t, Idle, n);
    case PushUnlock(t) => WorkOfMove(s.pc, t, MustNotify, n);
    case NotifyNobody(t) => WorkOfMove(s.pc, t, Idle, n);
    case Notify(t, u) => WorkOfNotify(s, t, u, n);
    case Spurious(u) => WorkOfMove(s.pc, u, Woken(s.pc[u].call), n);
  }

  /** With an item in the queue every run, spurious wake-ups and `front` callers included, takes one
      before it has made Work steps and four more for each call begun: at most four steps a thread. */
  lemma {:induction false} TakenSoon<T>(s: State<T>, run: seq<Event<T>>, n: nat)
    requires s.queue != [] && Possible(s, run) && Below(s, n)
    requires |run| > Work(s.pc, n) + 4 * Begins(run)
    ensures TakesItem(run)
    decreases |run|
  {
    var e := run[0];
    if e.Take? {
      assert run[0].Take?;
    } else {
      WorkOfStep(s, e, n);
      TakenSoon(Apply(s, e), run[1..], n);
      var i :| 0 <= i < |run[1..]| && run[1..][i].Take?;
      assert run[i + 1].Take?;
    }
  }

  lemma {:induction false} ConsumerStays<T>(s: State<T>, run: seq<Event<T>>, c: Tid)
    requires s.queue != [] && Possible(s, run) && !TakesItem(run) && c in s.pc && IsConsumer(s.pc[c])
    ensures var r := After(s, run);
      r.queue != [] && c in r.pc && IsConsumer(r.pc[c])
    decreases |run|
  {
    if run != [] {
      assert !run[0].Take?;
      assert forall i | 0 <= i < |run[1..]| :: run[1..][i] == run[i + 1];
      ConsumerStays(Apply(s, run[0]), run[1..], c);
    }
  }

  /** A state in which only a new call or a spurious wake-up could happen. */
  ghost predicate Quiescent<T(!new)>(s: State<T>) {
    forall e: Event<T> | Enabled(s, e) :: e.Begin? || e.Spurious?
  }

  lemma {:induction false} RunJoins<T>(s: State<T>, a: seq<Event<T>>, b: seq<Event<T>>)
    requires Possible(s, a) && Possible(After(s, a), b)
    ensures Possible(s, a + b) && After(s, a + b) == After(After(s, a), b)
    decreases |a|
  {
    if a == [] {
      assert a + b == b;
    } else {
      assert (a + b)[0] == a[0] && (a + b)[1..] == a[1..] + b;
      RunJoins(Apply(s, a[0]), a[1..], b);
    }
  }

  lemma NotAtRest<T(!new)>(s: State<T>, c: Tid)
    requires Safe(s) && NoLostWakeUp(s) && PopOnly(s)
    requires s.queue != [] && c in s.pc && IsConsumer(s.pc[c])
    ensures !Quiescent(s)
  {
    var more := ItemCanAlwaysBeTaken(s, c);
    assert more[0] in more && Enabled(s, more[0]);
  }

  /** No run of `pop` and `push` calls comes to rest over a waiting item: from any reachable state with
      an item and a consumer, it goes on until one is taken. */
  lemma TakenBeforeRest<T(!new)>(s: State<T>, before: seq<Event<T>>, run: seq<Event<T>>, c: Tid)
    requires Initial(s) && Possible(s, before) && Possible(After(s, before), run)
    requires NoFront(before) && NoFront(run)
    requires var r := After(s, before); r.queue != [] && c in r.pc && IsConsumer(r.pc[c])
    ensures TakesItem(run) || !Quiescent(After(After(s, before), run))
  {
    if !TakesItem(run) {
      ConsumerStays(After(s, before), run, c);
      RunJoins(s, before, run);
      Preserved(s, before + run);
      PopOnlyPreserved(s, before + run);
      NotAtRest(After(s, before + run), c);
    }
  }

  // ---------- `front` can absorb a notification ----------

  lemma {:induction false} Then<T>(s: State<T>, run: seq<Event<T>>, e: Event<T>) returns (longer: seq<Event<T>>)
    requires Possible(s, run) && Enabled(After(s, run), e)
    ensures longer == run + [e]
    ensures Possible(s, longer) && After(s, longer) == Apply(After(s, run), e)
    decreases |run|
  {
    longer := run + [e];
    if run != [] {
      var rest := Then(Apply(s, run[0]), run[1..], e);
      assert longer[1..] == rest;
    } else {
      assert longer[1..] == [];
    }
  }

  /** One thread enters the queue and goes to sleep on its emptiness. */
  lemma FallAsleep<T>(s: State<T>, run: seq<Event<T>>, t: Tid, call: Call<T>) returns (longer: seq<Event<T>>)
    requires Possible(s, run) && !call.Push?
    requires var r := After(s, run); r.queue == [] && r.owner.None? && t in r.pc && r.pc[t] == Idle
    ensures Possible(s, longer)
    ensures After(s, longer) == After(s, run).(owner := None, pc := After(s, run).pc[t := Sleeps(call)])
  {
    var r := After(s, run);
    longer := Then(s, run, Begin(t, call));
    longer := Then(s, longer, Acquire(t));
    longer := Then(s, longer, Sleep(t));
    assert r.pc[t := Wants(call)][t := Holds(call, false)][t := Sleeps(call)] == r.pc[t := Sleeps(call)];
  }

  /** An item in the queue, a consumer asleep in `pop`, the lock free, and nothing under way. */
  ghost predicate Stranded<T>(r: State<T>) {
    && r.queue != [] && r.owner.None? && Notifiers(r) == {} && Wakers(r) == {}
    && exists t | t in r.pc :: r.pc[t].Sleeps? && r.pc[t].call.Pop?
  }

  /** The `front` caller b is woken for the item that p pushes, looks at it, and leaves. */
  lemma WastedWakeUp<T>(s: State<T>, run: seq<Event<T>>, b: Tid, p: Tid, item: T) returns (longer: seq<Event<T>>)
    requires Possible(s, run)
    requires var r := After(s, run);
      r.queue == [] && r.owner.None? && b in r.pc && p in r.pc && b != p && r.pc[b] == Sleeps(Front) && r.pc[p] == Idle
    ensures Possible(s, longer)
    ensures var r := After(s, longer);
      r.queue == [item] && r.owner.None? && r.pc == After(s, run).pc[b := Idle]
  {
    longer := Then(s, run, Begin(p, Push(item)));
    longer := Then(s, longer, Acquire(p));
    longer := Then(s, longer, PushUnlock(p));
    longer := Then(s, longer, Notify(p, b));
    longer := Then(s, longer, Acquire(b));
    longer := Then(s, longer, Peek(b));
  }

  /** With a `front` caller the guarantee fails: for any three threads and any item a run strands a
      consumer in `pop`. */
  lemma FrontAbsorbsNotification<T>(s: State<T>, a: Tid, b: Tid, p: Tid, item: T) returns (run: seq<Event<T>>)
    requires Initial(s) && a in s.pc && b in s.pc && p in s.pc && a != b && a != p && b != p
    ensures Possible(s, run) && Stranded(After(s, run)) && After(s, run).queue == [item]
  {
    run := FallAsleep(s, [], a, Pop);
    run := FallAsleep(s, run, b, Front);
    run := WastedWakeUp(s, run, b, p, item);
    var r := After(s, run);
    assert forall t | t in r.pc && t != a :: r.pc[t] == Idle;
    assert r.pc[a] == Sleeps(Pop);
  }

  // ---------- which calls are safe ----------

  datatype Kind = PopKind | FrontKind | PushKind

  function KindOf<T>(call: Call<T>): Kind {
    match call
    case Pop => PopKind
    case Front => FrontKind
    case Push(_) => PushKind
  }

  predicate Permitted<T>(kinds: set<Kind>, run: seq<Event<T>>) {
    forall i | 0 <= i < |run| :: run[i].Begin? ==> KindOf(run[i].call) in kinds
  }

  ghost predicate Strands<T>(s: State<T>, kinds: set<Kind>, run: seq<Event<T>>) {
    Possible(s, run) && Permitted(kinds, run) && Stranded(After(s, run))
  }

  lemma ThreeThreads(threads: set<Tid>) returns (a: Tid, b: Tid, p: Tid)
    requires |threads| >= 3
    ensures a in threads && b in threads && p in threads && a != b && a != p && b != p
  {
    a :| a in threads;
    assert |threads - {a}| >= 2;
    b :| b in threads - {a};
    assert |threads - {a} - {b}| >= 1;
    p :| p in threads - {a} - {b};
  }

  lemma NotStranded<T>(s: State<T>, kinds: set<Kind>, run: seq<Event<T>>)
    requires Initial(s) && FrontKind !in kinds
    ensures !Strands(s, kinds, run)
  {
    if Possible(s, run) && Permitted(kinds, run) {
      NoLostWakeUpWithPopOnly(s, run);
      var r := After(s, run);
      if t :| t in r.pc && r.pc[t].Sleeps? { assert t in Sleepers(r); }
    }
  }

  /** With three threads or more, whatever the items, calls to `pop` and `push` can strand a consumer
      exactly when calls to `front` are permitted beside them. */
  lemma StrandedExactly<T>(s: State<T>, kinds: set<Kind>, item: T)
    requires Initial(s) && |s.pc.Keys| >= 3 && {PopKind, PushKind} <= kinds
    ensures (exists run: seq<Event<T>> :: Strands(s, kinds, run)) <==> FrontKind in kinds
  {
    if FrontKind in kinds {
      var a, b, p := ThreeThreads(s.pc.Keys);
      var run := FrontAbsorbsNotification(s, a, b, p, item);
      assert Permitted(kinds, run);
      assert Strands(s, kinds, run);
    } else {
      forall run: seq<Event<T>> ensures !Strands(s, kinds, run) { NotStranded(s, kinds, run); }
    }
  }

  // ---------- the class ----------

  /** The object itself: one method per atomic action, each an event of the protocol. */
  class Queue<T> {
    var queue: seq<T>
    var owner: Option<Tid>
    var pc: map<Tid, Pc<T>>
    ghost var pushed: seq<T>
    ghost var popped: seq<T>
    ghost var absorbed: nat

    ghost function View(): State<T>
      reads this
    {
      State(queue, owner, pc, pushed, popped, absorbed)
    }

    ghost predicate Valid()
      reads this
    {
      Safe(View()) && NoLostWakeUp(View())
    }

    constructor (threads: set<Tid>)
      ensures Initial(View()) && pc.Keys == threads && Valid()
    {
      queue, owner, pc := [], None, map t | t in threads :: Idle;
      pushed, popped, absorbed := [], [], 0;
    }

    ghost method Record(before: State<T>, e: Event<T>)
      requires Safe(before) && NoLostWakeUp(before) && Enabled(before, e) && View() == Apply(before, e)
      ensures Valid()
    {
      SafeStep(before, e);
      NoLostWakeUpStep(before, e);
    }

    method Enter(t: Tid, call: Call<T>)
      requires Valid() && Enabled(View(), Begin(t, call))
      modifies this
      ensures Valid() && View() == Apply(old(View()), Begin(t, call))
    {
      pc := pc[t := Wants(call)];
      Record(old(View()), Begin(t, call));
    }

    method Lock(t: Tid)
      requires Valid() && Enabled(View(), Acquire(t))
      modifies this
      ensures Valid() && View() == Apply(old(View()), Acquire(t))
    {
      owner := Some(t);
      pc := pc[t := Holds(pc[t].call, pc[t].Woken?)];
      Record(old(View()), Acquire(t));
    }

    /** One turn of the loop in `pop`, under the lock. */
    method PopTurn(t: Tid) returns (val: Option<T>)
      requires Valid() && t in pc && pc[t].Holds? && pc[t].call.Pop?
      modifies this
      ensures Valid()
      ensures View() == Apply(old(View()), if old(queue) == [] then Sleep(t) else Take(t))
      ensures val == if old(queue) == [] then None else Some(old(queue)[0])
    {
      ghost var before := View();
      if |queue| == 0 {
        owner := None;
        pc := pc[t := Sleeps(pc[t].call)];
        Record(before, Sleep(t));
        return None;
      }
      val := Some(queue[0]);
      queue, popped := queue[1..], popped + [queue[0]];
      owner := None;
      pc := pc[t := Idle];
      Record(before, Take(t));
    }

    /** One turn of the loop in `front`, under the lock. */
    method FrontTurn(t: Tid) returns (val: Option<T>)
      requires Valid() && t in pc && pc[t].Holds? && pc[t].call.Front?
      modifies this
      ensures Valid() && queue == old(queue)
      ensures View() == Apply(old(View()), if old(queue) == [] then Sleep(t) else Peek(t))
      ensures val == if old(queue) == [] then None else Some(old(queue)[0])
    {
      ghost var before := View();
      if |queue| == 0 {
        owner := None;
        pc := pc[t := Sleeps(pc[t].call)];
        Record(before, Sleep(t));
        return None;
      }
      val := Some(queue[0]);
      absorbed := if pc[t].woken then absorbed + 1 else absorbed;
      owner := None;
      pc := pc[t := Idle];
      Record(before, Peek(t));
    }

    method PushAndUnlock(t: Tid)
      requires Valid() && Enabled(View(), PushUnlock(t))
      modifies this
      ensures Valid() && View() == Apply(old(View()), PushUnlock(t))
      ensures queue == old(queue) + [old(pc)[t].call.item]
    {
      var item := pc[t].call.item;
      queue, pushed := queue + [item], pushed + [item];
      owner := None;
      pc := pc[t := MustNotify];
      Record(old(View()), PushUnlock(t));
    }

    /** `notify_one` wakes some sleeper if there is one. */
    method NotifyOne(t: Tid) returns (u: Option<Tid>)
      requires Valid() && t in pc && pc[t].MustNotify?
      modifies this
      ensures Valid() && queue == old(queue)
      ensures u.None? <==> old(Sleepers(View())) == {}
      ensures u.None? ==> View() == Apply(old(View()), NotifyNobody(t))
      ensures u.Some? ==> u.value in old(Sleepers(View())) && View() == Apply(old(View()), Notify(t, u.value))
    {
      ghost var before := View();
      var sleepers := set w | w in pc && pc[w].Sleeps?;
      assert sleepers == Sleepers(before);
      if sleepers == {} {
        pc := pc[t := Idle];
        u := None;
        Record(before, NotifyNobody(t));
      } else {
        var w :| w in sleepers;
        pc := pc[t := Idle][w := Woken(pc[w].call)];
        u := Some(w);
        Record(before, Notify(t, w));
      }
    }

    // Whole calls that nobody else interrupts.

    method CallPush(t: Tid, item: T)
      requires Valid() && t in pc && pc[t].Idle? && owner.None?
      modifies this
      ensures Valid() && queue == old(queue) + [item] && owner.None?
    {
      Enter(t, Push(item));
      Lock(t);
      PushAndUnlock(t);
      var woken := NotifyOne(t);
    }

    method CallPop(t: Tid) returns (val: Option<T>)
      requires Valid() && t in pc && pc[t].Idle? && owner.None?
      modifies this
      ensures Valid() && t in pc && owner.None?
      ensures old(queue) == [] ==> val == None && queue == [] && pc[t] == Sleeps(Pop)
      ensures old(queue) != [] ==> val == Some(old(queue)[0]) && queue == old(queue)[1..] && pc[t] == Idle
    {
      Enter(t, Pop);
      Lock(t);
      val := PopTurn(t);
    }

    method CallFront(t: Tid) returns (val: Option<T>)
      requires Valid() && t in pc && pc[t].Idle? && owner.None?
      modifies this
      ensures Valid() && t in pc && owner.None? && queue == old(queue)
      ensures old(queue) == [] ==> val == None && pc[t] == Sleeps(Front)
      ensures old(queue) != [] ==> val == Some(old(queue)[0]) && pc[t] == Idle
    {
      Enter(t, Front);
      Lock(t);
      val := FrontTurn(t);
    }
  }
}
