/** Who waits for whom. Each mailbox's goroutine runs one operation at a time; operations take the cluster cache's lock,
    ask further mailboxes, and hand changes to queues. The module models these as steps that interleave freely. */
module ActorTopology {
  import opened Kubernetes

  datatype Actor =
    | Client(n: nat) // a command handler or a sweep
    | Watcher(n: nat) // the cluster cache processing an event
    | Registry
    | Target(id: ClusterId)
    | Index
    | Queue(id: ClusterId)

  datatype Action =
    | Work // anything that waits for nobody in this model, such as a call to the API server
    | Lock // the cluster cache's lock
    | Unlock
    | Ask(callee: Actor, body: Script) // wait to be accepted, then for the body to have run on the callee's goroutine
    | Hand(queue: ClusterId) // wait for the queue to take a change

  type Script = seq<Action>

  /** What a goroutine that is not idle is doing: what is left to do, whom it asked, and on whose behalf. */
  datatype Frame = Frame(todo: Script, waiting: Option<Actor>, caller: Option<Actor>, ticket: nat)

  datatype Entry = Began(actor: Actor, ticket: nat) | Ended(actor: Actor, ticket: nat)

  datatype System = System(
    threads: map<Actor, Frame>, // the goroutines that are not idle
    lock: Option<Actor>,
    folding: set<ClusterId>, // the queues that have just taken a change
    log: seq<Entry>,
    next: nat)

  datatype Step =
    | Start(actor: Actor, script: Script) // a command, a sweep or an event arrives
    | Deliver(id: ClusterId, script: Script) // a queue hands its target a change to apply
    | Cancel(actor: Actor) // a context ends before the operation was accepted, and the asker carries on
    | Accept(actor: Actor)
    | Finish(actor: Actor)
    | Proceed(actor: Actor)
    | Acquire(actor: Actor)
    | Release(actor: Actor)
    | HandOver(actor: Actor)
    | Fold(id: ClusterId)
  {
    /** The steps that need nothing from outside. */
    predicate Internal() {
      !Start? && !Deliver? && !Cancel?
    }
  }

  // ---------- what each goroutine's operations may do ----------

  predicate MayAsk(asker: Actor, callee: Actor, locked: bool) {
    if locked then callee == Index
    else match asker
      case Client(_) => callee == Registry || callee.Target?
      case Registry => callee == Index
      case Target(_) => callee == Index
      case _ => false
  }

  predicate MayLock(actor: Actor) {
    actor.Client? || actor.Watcher? || actor.Registry? || actor.Target?
  }

  /** The lock is released before a script ends, only the index is asked while it is held, and only the index hands out
      changes. */
  predicate Allowed(actor: Actor, script: Script, locked: bool)
    decreases script
  {
    if script == [] then !locked
    else match script[0]
      case Work => Allowed(actor, script[1..], locked)
      case Lock => !locked && MayLock(actor) && Allowed(actor, script[1..], true)
      case Unlock => locked && Allowed(actor, script[1..], false)
      case Ask(callee, body) => MayAsk(actor, callee, locked) && Allowed(callee, body, false)
                                && Allowed(actor, script[1..], locked)
      case Hand(_) => actor == Index && Allowed(actor, script[1..], locked)
  }

  // ---------- steps ----------

  predicate HeadIs(s: System, a: Actor, action: Action) {
    a in s.threads && s.threads[a].waiting.None? && s.threads[a].todo != [] && s.threads[a].todo[0] == action
  }

  predicate AtAsk(s: System, a: Actor) {
    a in s.threads && s.threads[a].waiting.None? && s.threads[a].todo != [] && s.threads[a].todo[0].Ask?
  }

  predicate AtHand(s: System, a: Actor) {
    a in s.threads && s.threads[a].waiting.None? && s.threads[a].todo != [] && s.threads[a].todo[0].Hand?
  }

  predicate Enabled(s: System, step: Step) {
    match step
    case Start(a, script) => (a.Client? || a.Watcher?) && a !in s.threads && Allowed(a, script, false)
    case Deliver(id, script) => Target(id) !in s.threads && id !in s.folding && Allowed(Target(id), script, false)
    case Cancel(a) => AtAsk(s, a)
    case Accept(a) => AtAsk(s, a) && s.threads[a].todo[0].callee !in s.threads
    case Finish(a) => a in s.threads && s.threads[a].waiting.None? && s.threads[a].todo == []
    case Proceed(a) => HeadIs(s, a, Work)
    case Acquire(a) => HeadIs(s, a, Lock) && s.lock.None?
    case Release(a) => HeadIs(s, a, Unlock)
    case HandOver(a) => AtHand(s, a) && s.threads[a].todo[0].queue !in s.folding
    case Fold(id) => id in s.folding
  }

  /** The goroutine goes on to its next action. */
  function Advance(threads: map<Actor, Frame>, a: Actor): map<Actor, Frame>
    requires a in threads && threads[a].todo != []
  {
    threads[a := threads[a].(todo := threads[a].todo[1..])]
  }

  function Begin(s: System, a: Actor, script: Script, caller: Option<Actor>): System {
    s.(threads := s.threads[a := Frame(script, None, caller, s.next)], log := s.log + [Began(a, s.next)],
       next := s.next + 1)
  }

  function Resume(threads: map<Actor, Frame>, caller: Option<Actor>): map<Actor, Frame> {
    if caller.Some? && caller.value in threads
    then threads[caller.value := threads[caller.value].(waiting := None)]
    else threads
  }

  function Next(s: System, step: Step): System
    requires Enabled(s, step)
  {
    match step
    case Start(a, script) => Begin(s, a, script, None)
    case Deliver(id, script) => Begin(s, Target(id), script, None)
    case Cancel(a) => s.(threads := Advance(s.threads, a))
    case Accept(a) =>
      var ask := s.threads[a].todo[0];
      var asked := s.(threads := Advance(s.threads, a)[a := Advance(s.threads, a)[a].(waiting := Some(ask.callee))]);
      Begin(asked, ask.callee, ask.body, Some(a))
    case Finish(a) =>
      s.(threads := Resume(s.threads - {a}, s.threads[a].caller), log := s.log + [Ended(a, s.threads[a].ticket)])
    case Proceed(a) => s.(threads := Advance(s.threads, a))
    case Acquire(a) => s.(threads := Advance(s.threads, a), lock := Some(a))
    case Release(a) => s.(threads := Advance(s.threads, a), lock := None)
    case HandOver(a) => s.(threads := Advance(s.threads, a), folding := s.folding + {s.threads[a].todo[0].queue})
    case Fold(id) => s.(folding := s.folding - {id})
  }

  // ---------- what every step keeps ----------

  /** Along every wait the level falls. Holding the lock puts a goroutine below everyone who may wait for the lock. */
  function Level(s: System, a: Actor): nat {
    if a.Queue? then 0
    else if a == Index then 1
    else if s.lock == Some(a) then 2
    else if a.Client? then 4
    else 3
  }

  /** What a goroutine has left to do is allowed, and it waits exactly for the one that works on its behalf. */
  predicate SoundAt(s: System, a: Actor) {
    && (s.lock == Some(a) ==> a in s.threads && MayLock(a))
    && (a in s.threads ==>
          var f := s.threads[a];
          && !a.Queue?
          && Allowed(a, f.todo, s.lock == Some(a))
          && (f.waiting.Some? ==>
                var callee := f.waiting.value;
                callee in s.threads && s.threads[callee].caller == Some(a) && MayAsk(a, callee, s.lock == Some(a)))
          && (f.caller.Some? ==> f.caller.value in s.threads && s.threads[f.caller.value].waiting == Some(a)))
  }

  ghost predicate Sound(s: System) {
    forall a :: SoundAt(s, a)
  }

  const QUIET := System(map[], None, {}, [], 0)

  lemma StepStaysSoundAt(s: System, step: Step, b: Actor)
    requires Sound(s) && Enabled(s, step)
    ensures SoundAt(Next(s, step), b)
  {
    assert SoundAt(s, b);
    match step
    case Start(a, _) => assert SoundAt(s, a);
    case Deliver(id, _) => assert SoundAt(s, Target(id));
    case Accept(a) => AcceptStaysSoundAt(s, a, b);
    case Finish(a) => FinishStaysSoundAt(s, a, b);
    case Cancel(a) => assert SoundAt(s, a);
    case Proceed(a) => assert SoundAt(s, a);
    case Acquire(a) => assert SoundAt(s, a);
    case Release(a) => assert SoundAt(s, a);
    case HandOver(a) => assert SoundAt(s, a);
    case Fold(_) =>
  }

  lemma AcceptStaysSoundAt(s: System, a: Actor, b: Actor)
    requires Sound(s) && Enabled(s, Accept(a))
    ensures SoundAt(Next(s, Accept(a)), b)
  {
    assert SoundAt(s, b) && SoundAt(s, a) && SoundAt(s, s.threads[a].todo[0].callee);
  }

  lemma FinishStaysSoundAt(s: System, a: Actor, b: Actor)
    requires Sound(s) && Enabled(s, Finish(a))
    ensures SoundAt(Next(s, Finish(a)), b)
  {
    assert SoundAt(s, b) && SoundAt(s, a);
    if s.threads[a].caller.Some? {
      assert SoundAt(s, s.threads[a].caller.value);
    }
  }

  lemma StepStaysSound(s: System, step: Step)
    requires Sound(s) && Enabled(s, step)
    ensures Sound(Next(s, step))
  {
    forall b ensures SoundAt(Next(s, step), b) {
      StepStaysSoundAt(s, step, b);
    }
  }

  // ---------- somebody can always go on ----------

  /** Whom a goroutine that is not idle is waiting for. */
  function WaitsFor(s: System, a: Actor): Option<Actor>
    requires a in s.threads
  {
    var f := s.threads[a];
    if f.waiting.Some? then f.waiting
    else if f.todo == [] then None
    else match f.todo[0]
      case Ask(callee, _) => if callee in s.threads then Some(callee) else None
      case Lock => s.lock
      case Hand(id) => if id in s.folding then Some(Queue(id)) else None
      case Work => None
      case Unlock => None
  }

  /** What it does next if it waits for nobody. */
  function OwnStep(s: System, a: Actor): Step
    requires a in s.threads
  {
    var f := s.threads[a];
    if f.todo == [] then Finish(a)
    else match f.todo[0]
      case Work => Proceed(a)
      case Lock => Acquire(a)
      case Unlock => Release(a)
      case Ask(_, _) => Accept(a)
      case Hand(_) => HandOver(a)
  }

  predicate IsBusy(s: System, a: Actor) {
    a in s.threads || (a.Queue? && a.id in s.folding)
  }

  lemma WaitsGoDown(s: System, a: Actor)
    requires Sound(s) && a in s.threads && WaitsFor(s, a).Some?
    ensures IsBusy(s, WaitsFor(s, a).value) && Level(s, WaitsFor(s, a).value) < Level(s, a)
  {
    assert SoundAt(s, a) && SoundAt(s, WaitsFor(s, a).value);
  }

  /** A chain of waits, each for a goroutine on a lower level, ends in one that can go on. */
  ghost predicate LeadsTo(s: System, chain: seq<Actor>, step: Step) {
    && chain != [] && step.Internal() && Enabled(s, step)
    && (forall i :: 0 <= i < |chain| - 1 ==>
          chain[i] in s.threads && WaitsFor(s, chain[i]) == Some(chain[i + 1])
          && Level(s, chain[i + 1]) < Level(s, chain[i]))
    && (var last := chain[|chain| - 1];
        if last.Queue? then step == Fold(last.id) else last in s.threads && step == OwnStep(s, last))
  }

  /** Whoever waits, waits in the end for somebody who can go on. */
  lemma {:induction false} EveryWaitLeadsToProgress(s: System, a: Actor) returns (chain: seq<Actor>, step: Step)
    requires Sound(s) && IsBusy(s, a)
    ensures LeadsTo(s, chain, step) && chain[0] == a
    decreases Level(s, a)
  {
    assert SoundAt(s, a);
    if a !in s.threads {
      chain, step := [a], Fold(a.id);
    } else if WaitsFor(s, a).None? {
      chain, step := [a], OwnStep(s, a);
    } else {
      WaitsGoDown(s, a);
      var rest;
      rest, step := EveryWaitLeadsToProgress(s, WaitsFor(s, a).value);
      chain := [a] + rest;
    }
  }

  ghost predicate Finished(s: System) {
    s.threads == map[] && s.folding == {}
  }

  lemma LockIsHeld(s: System)
    requires Sound(s)
    ensures s.lock.Some? ==> s.lock.value in s.threads
  {
    if s.lock.Some? {
      assert SoundAt(s, s.lock.value);
    }
  }

  /** There is no deadlock: nothing can go on by itself only when every goroutine is idle and every queue is ready. */
  lemma StuckMeansFinished(s: System)
    requires Sound(s)
    ensures (forall step: Step :: step.Internal() ==> !Enabled(s, step)) <==> Finished(s)
    ensures Finished(s) ==> s.lock.None?
  {
    if a :| a in s.threads {
      var chain, step := EveryWaitLeadsToProgress(s, a);
    } else if id :| id in s.folding {
      assert Enabled(s, Fold(id));
    }
    LockIsHeld(s);
  }

  // ---------- every run ----------

  ghost predicate Possible(s: System, steps: seq<Step>)
    decreases |steps|
  {
    steps == [] || (Enabled(s, steps[0]) && Possible(Next(s, steps[0]), steps[1..]))
  }

  ghost function Run(s: System, steps: seq<Step>): System
    requires Possible(s, steps)
    decreases |steps|
  {
    if steps == [] then s else Run(Next(s, steps[0]), steps[1..])
  }

  /** Work left in a script: an operation is accepted, runs and finishes; a handed-over change is folded. */
  function Weight(script: Script): nat
    decreases script
  {
    if script == [] then 0
    else match script[0]
      case Ask(_, body) => 2 + Weight(body) + Weight(script[1..])
      case Hand(_) => 2 + Weight(script[1..])
      case _ => 1 + Weight(script[1..])
  }

  ghost function Total(threads: map<Actor, Frame>): nat
    decreases |threads|
  {
    if threads == map[] then 0
    else
      var a :| a in threads;
      1 + Weight(threads[a].todo) + Total(threads - {a})
  }

  lemma {:induction false} TotalWithout(threads: map<Actor, Frame>, a: Actor)
    requires a in threads
    ensures Total(threads) == 1 + Weight(threads[a].todo) + Total(threads - {a})
    decreases |threads|
  {
    var b :| b in threads && Total(threads) == 1 + Weight(threads[b].todo) + Total(threads - {b});
    if a != b {
      TotalWithout(threads - {b}, a);
      TotalWithout(threads - {a}, b);
      assert threads - {a} - {b} == threads - {b} - {a};
    }
  }

  lemma TotalWith(threads: map<Actor, Frame>, a: Actor, f: Frame)
    ensures Total(threads[a := f]) == 1 + Weight(f.todo) + Total(threads - {a})
  {
    TotalWithout(threads[a := f], a);
    assert threads[a := f] - {a} == threads - {a};
  }

  /** All the work left: what is in scripts and what queues have yet to fold. */
  ghost function WorkLeft(s: System): nat {
    Total(s.threads) + |s.folding|
  }

  lemma AdvanceDoesWork(threads: map<Actor, Frame>, a: Actor, f: Frame)
    requires a in threads && threads[a].todo != [] && f.todo == threads[a].todo[1..]
    ensures Total(threads) + Weight(f.todo) == Total(threads[a := f]) + Weight(threads[a].todo)
  {
    TotalWithout(threads, a);
    TotalWith(threads, a, f);
  }

  lemma ResumeKeepsTotal(threads: map<Actor, Frame>, caller: Option<Actor>)
    ensures Total(Resume(threads, caller)) == Total(threads)
  {
    if caller.Some? && caller.value in threads {
      TotalWithout(threads, caller.value);
      TotalWith(threads, caller.value, threads[caller.value].(waiting := None));
    }
  }

  lemma InternalStepDoesWork(s: System, step: Step)
    requires Enabled(s, step) && step.Internal()
    ensures WorkLeft(Next(s, step)) < WorkLeft(s)
  {
    match step
    case Accept(a) => AcceptDoesWork(s, a);
    case Finish(a) =>
      TotalWithout(s.threads, a);
      ResumeKeepsTotal(s.threads - {a}, s.threads[a].caller);
    case Proceed(a) => AdvanceDoesWork(s.threads, a, Advance(s.threads, a)[a]);
    case Acquire(a) => AdvanceDoesWork(s.threads, a, Advance(s.threads, a)[a]);
    case Release(a) => AdvanceDoesWork(s.threads, a, Advance(s.threads, a)[a]);
    case HandOver(a) =>
      AdvanceDoesWork(s.threads, a, Advance(s.threads, a)[a]);
      assert |s.folding + {s.threads[a].todo[0].queue}| == |s.folding| + 1;
    case Fold(id) =>
      assert |s.folding - {id}| == |s.folding| - 1;
  }

  lemma AcceptDoesWork(s: System, a: Actor)
    requires Enabled(s, Accept(a))
    ensures WorkLeft(Next(s, Accept(a))) < WorkLeft(s)
  {
    var ask := s.threads[a].todo[0];
    var asked := Advance(s.threads, a)[a].(waiting := Some(ask.callee));
    assert Advance(s.threads, a)[a := asked] == s.threads[a := asked];
    AdvanceDoesWork(s.threads, a, asked);
    TotalWith(s.threads[a := asked], ask.callee, Frame(ask.body, None, Some(a), s.next));
    assert s.threads[a := asked] - {ask.callee} == s.threads[a := asked];
  }

  lemma {:induction false} RunsStaySound(s: System, steps: seq<Step>)
    requires Sound(s) && Possible(s, steps)
    ensures Sound(Run(s, steps))
    decreases |steps|
  {
    if steps != [] {
      StepStaysSound(s, steps[0]);
      RunsStaySound(Next(s, steps[0]), steps[1..]);
    }
  }

  ghost predicate AllInternal(steps: seq<Step>) {
    forall step :: step in steps ==> step.Internal()
  }

  lemma {:induction false} InternalRunsAreBounded(s: System, steps: seq<Step>)
    requires Possible(s, steps) && AllInternal(steps)
    ensures |steps| + WorkLeft(Run(s, steps)) <= WorkLeft(s)
    decreases |steps|
  {
    if steps != [] {
      assert steps[0] in steps && AllInternal(steps[1..]);
      InternalStepDoesWork(s, steps[0]);
      InternalRunsAreBounded(Next(s, steps[0]), steps[1..]);
    }
  }

  /** From anything reachable, whatever order the goroutines run in, a bounded number of steps finishes everything
      that was begun: a run that cannot be continued has left every goroutine idle and the lock free. */
  lemma EverythingBegunFinishes(begun: seq<Step>, steps: seq<Step>)
    requires Possible(QUIET, begun)
    requires Possible(Run(QUIET, begun), steps) && AllInternal(steps)
    ensures |steps| <= WorkLeft(Run(QUIET, begun))
    ensures var last := Run(Run(QUIET, begun), steps);
            (forall step: Step :: step.Internal() ==> !Enabled(last, step)) <==> Finished(last)
    ensures var last := Run(Run(QUIET, begun), steps);
            Finished(last) ==> last.lock.None?
  {
    assert Sound(QUIET);
    RunsStaySound(QUIET, begun);
    RunsStaySound(Run(QUIET, begun), steps);
    InternalRunsAreBounded(Run(QUIET, begun), steps);
    StuckMeansFinished(Run(Run(QUIET, begun), steps));
  }

  // ---------- each operation runs once, one at a time ----------

  /** The ticket of the operation a goroutine is running, by the log. */
  function Open(log: seq<Entry>, a: Actor): Option<nat> {
    if log == [] then None
    else match log[|log| - 1]
      case Began(b, ticket) => if a == b then Some(ticket) else Open(log[..|log| - 1], a)
      case Ended(b, _) => if a == b then None else Open(log[..|log| - 1], a)
  }

  /** Every operation begins when its goroutine runs nothing else, and only the one that runs ends. */
  predicate OneAtATime(log: seq<Entry>, a: Actor) {
    log == [] ||
    (&& OneAtATime(log[..|log| - 1], a)
     && match log[|log| - 1]
        case Began(b, _) => a == b ==> Open(log[..|log| - 1], a).None?
        case Ended(b, ticket) => a == b ==> Open(log[..|log| - 1], a) == Some(ticket))
  }

  ghost predicate FreshTickets(log: seq<Entry>, next: nat) {
    && (forall i :: 0 <= i < |log| ==> log[i].ticket < next)
    && (forall i, j :: 0 <= i < j < |log| && log[i].Began? && log[j].Began? ==> log[i].ticket < log[j].ticket)
  }

  ghost predicate Logged(s: System) {
    && FreshTickets(s.log, s.next)
    && (forall a :: LoggedAt(s, a))
  }

  predicate LoggedAt(s: System, a: Actor) {
    OneAtATime(s.log, a) && Open(s.log, a) == (if a in s.threads then Some(s.threads[a].ticket) else None)
  }

  lemma LogOneMore(log: seq<Entry>, e: Entry, a: Actor)
    ensures OneAtATime(log + [e], a) <==>
            (OneAtATime(log, a) && (e.actor == a ==> Open(log, a) == if e.Began? then None else Some(e.ticket)))
    ensures Open(log + [e], a) == if e.actor != a then Open(log, a) else if e.Began? then Some(e.ticket) else None
  {
    assert (log + [e])[..|log|] == log;
  }

  lemma StepStaysLogged(s: System, step: Step)
    requires Logged(s) && Enabled(s, step)
    ensures Logged(Next(s, step))
  {
    var n := Next(s, step);
    forall a ensures LoggedAt(n, a) {
      assert LoggedAt(s, a);
      if n.log != s.log {
        var e := n.log[|n.log| - 1];
        assert n.log == s.log + [e] && LoggedAt(s, e.actor);
        LogOneMore(s.log, e, a);
      }
    }
    if step.Finish? {
      assert LoggedAt(s, step.actor);
      OpenIsLogged(s.log, step.actor);
    }
  }

  lemma {:induction false} OpenIsLogged(log: seq<Entry>, a: Actor)
    ensures Open(log, a).Some? ==> exists i :: 0 <= i < |log| && log[i] == Began(a, Open(log, a).value)
  {
    if log != [] && log[|log| - 1].actor != a && Open(log, a).Some? {
      OpenIsLogged(log[..|log| - 1], a);
      var i :| 0 <= i < |log| - 1 && log[..|log| - 1][i] == Began(a, Open(log, a).value);
      assert log[i] == Began(a, Open(log, a).value);
    } else if log != [] && log[|log| - 1].actor == a && Open(log, a).Some? {
      assert log[|log| - 1] == Began(a, Open(log, a).value);
    }
  }

  lemma {:induction false} RunsStayLogged(s: System, steps: seq<Step>)
    requires Logged(s) && Possible(s, steps)
    ensures Logged(Run(s, steps))
    decreases |steps|
  {
    if steps != [] {
      StepStaysLogged(s, steps[0]);
      RunsStayLogged(Next(s, steps[0]), steps[1..]);
    }
  }

  /** Whatever began has ended since, unless it is still running. */
  lemma {:induction false} BegunEnds(log: seq<Entry>, a: Actor, i: nat)
    requires OneAtATime(log, a) && i < |log| && log[i].Began? && log[i].actor == a
    ensures Open(log, a) == Some(log[i].ticket) || exists j :: i < j < |log| && log[j] == Ended(a, log[i].ticket)
    decreases |log|
  {
    var before, last := log[..|log| - 1], log[|log| - 1];
    if i < |log| - 1 {
      BegunEnds(before, a, i);
      if Open(before, a) == Some(log[i].ticket) {
        if last.actor == a {
          assert last == Ended(a, log[i].ticket);
        }
      } else {
        var j :| i < j < |before| && before[j] == Ended(a, log[i].ticket);
        assert log[j] == Ended(a, log[i].ticket);
      }
    }
  }

  /** In every run, each goroutine runs its operations one at a time, each ticket begins once, and once everything has
      finished every operation that was accepted has also ended. */
  lemma EachOperationRunsOnce(steps: seq<Step>, i: nat)
    requires Possible(QUIET, steps)
    requires var s := Run(QUIET, steps); i < |s.log| && s.log[i].Began?
    ensures var s := Run(QUIET, steps);
            && OneAtATime(s.log, s.log[i].actor)
            && (forall j :: 0 <= j < |s.log| && s.log[j].Began? && s.log[j].ticket == s.log[i].ticket ==> j == i)
            && (s.log[i].actor !in s.threads ==>
                  exists j :: i < j < |s.log| && s.log[j] == Ended(s.log[i].actor, s.log[i].ticket))
  {
    var s := Run(QUIET, steps);
    assert Logged(QUIET);
    RunsStayLogged(QUIET, steps);
    assert LoggedAt(s, s.log[i].actor);
    BegunEnds(s.log, s.log[i].actor, i);
  }

  // ---------- the operations there are ----------

  /** Publishing, populating and subscribing are all one short operation on the index. */
  const TELL_INDEX := Ask(Index, [Work])

  function Times(n: nat, action: Action): Script {
    if n == 0 then [] else [action] + Times(n - 1, action)
  }

  function Hands(recipients: seq<ClusterId>): Script {
    if recipients == [] then [] else [Hand(recipients[0])] + Hands(recipients[1..])
  }

  /** Reading from the cache, be it only its info, takes its lock for a moment. */
  const READ_CACHE := [Lock, Work, Unlock]

  /** A sync reads the cache's info and then lists the cluster under the lock, populating each resource it meets. */
  function Sync(resources: nat): Script {
    READ_CACHE + Listing(resources)
  }

  function Listing(resources: nat): Script {
    [Lock] + Times(resources, TELL_INDEX) + [Unlock]
  }

  /** A watch event under the lock: the resource is populated, and the change is routed to its recipients. */
  function WatchEvent(recipients: seq<ClusterId>): Script {
    [Lock, TELL_INDEX, Ask(Index, Hands(recipients)), Unlock]
  }

  /** Looking at the cluster reads the cache twice: for live objects, and for what lies beneath them. */
  const LOOK := [Work] + READ_CACHE + READ_CACHE

  /** Where the first read fails there is no second. */
  const FAILED_LOOK := [Work] + READ_CACHE

  function Rescan(resources: nat): Script {
    [Work, TELL_INDEX] + Sync(resources) + LOOK + [TELL_INDEX]
  }

  /** The registry creates the target if need be, and subscribes it. The first target makes it connect before, which
      reads the cache's info. */
  const ADD_TARGET := [Work, TELL_INDEX]
  const CONNECT_AND_ADD := READ_CACHE + ADD_TARGET

  /** A command asks the registry for its target and then the target, each of which may stop early. */
  function Command(id: ClusterId, ensured: Script, done: Script): Script {
    [Ask(Registry, ensured), Ask(Target(id), done)]
  }

  /** Deleting needs no look at the cluster, only a publication if the instance is known. */
  const DELETE := [Work, TELL_INDEX]

  /** One look for each instance, some of which may fail. */
  function Looks(succeed: seq<bool>): Script {
    if succeed == [] then [TELL_INDEX] else (if succeed[0] then LOOK else FAILED_LOOK) + Looks(succeed[1..])
  }

  function AskEach(targets: seq<(ClusterId, seq<bool>)>): Script {
    if targets == [] then [] else [Ask(Target(targets[0].0), Looks(targets[0].1))] + AskEach(targets[1..])
  }

  function Sweep(targets: seq<(ClusterId, seq<bool>)>, resources: nat): Script {
    [Ask(Registry, [Work])] + Sync(resources) + AskEach(targets)
  }

  /** Applying a delivered change: manifests may be fetched, and updates lead to a publication. */
  const APPLY_CHANGE := [Work, TELL_INDEX]

  function Uses(script: Script, action: Action): nat {
    if script == [] then 0 else (if script[0] == action then 1 else 0) + Uses(script[1..], action)
  }

  lemma {:induction false} UsesOfBoth(a: Script, b: Script, action: Action)
    ensures Uses(a + b, action) == Uses(a, action) + Uses(b, action)
  {
    if a == [] {
      assert a + b == b;
    } else {
      assert (a + b)[0] == a[0] && (a + b)[1..] == a[1..] + b;
      UsesOfBoth(a[1..], b, action);
    }
  }

  lemma {:induction false} UsesOfTimes(n: nat, done: Action, action: Action)
    ensures Uses(Times(n, done), action) == if action == done then n else 0
  {
    if n > 0 {
      UsesOfTimes(n - 1, done, action);
      assert Times(n, done)[1..] == Times(n - 1, done);
    }
  }

  lemma UsesOfOne(done: Action, action: Action)
    ensures Uses([done], action) == if action == done then 1 else 0
  {
    assert [done][1..] == [];
  }

  lemma UsesOfReading(action: Action)
    ensures Uses(READ_CACHE, action) == if action == Lock || action == Work || action == Unlock then 1 else 0
  {
    assert READ_CACHE == [Lock] + [Work] + [Unlock];
    UsesOfBoth([Lock], [Work], action);
    UsesOfBoth([Lock] + [Work], [Unlock], action);
    UsesOfOne(Lock, action);
    UsesOfOne(Work, action);
    UsesOfOne(Unlock, action);
  }

  lemma UsesOfLooking(action: Action)
    ensures Uses(LOOK, action) == (if action == Work then 1 else 0) + 2 * Uses(READ_CACHE, action)
  {
    UsesOfBoth([Work], READ_CACHE, action);
    UsesOfBoth([Work] + READ_CACHE, READ_CACHE, action);
    UsesOfOne(Work, action);
  }

  lemma UsesOfSyncing(resources: nat, action: Action)
    ensures Uses(Sync(resources), action) ==
            Uses(READ_CACHE, action) + (if action == Lock || action == Unlock then 1 else 0)
            + (if action == TELL_INDEX then resources else 0)
  {
    UsesOfTimes(resources, TELL_INDEX, action);
    UsesOfBoth([Lock], Times(resources, TELL_INDEX), action);
    UsesOfBoth([Lock] + Times(resources, TELL_INDEX), [Unlock], action);
    UsesOfBoth(READ_CACHE, Listing(resources), action);
    UsesOfOne(Lock, action);
    UsesOfOne(Unlock, action);
  }

  /** A rescan publishes twice and populates each resource listed, and takes the cache's lock four times: for its info,
      for the listing, and for two reads. */
  lemma RescanUses(resources: nat)
    ensures Uses(Rescan(resources), TELL_INDEX) == resources + 2
    ensures Uses(Rescan(resources), Lock) == 4 && Uses(Rescan(resources), Unlock) == 4
  {
    assert [Work, TELL_INDEX] == [Work] + [TELL_INDEX];
    forall action ensures Uses(Rescan(resources), action) ==
                          (if action == Work then 1 else 0) + (if action == TELL_INDEX then 2 else 0)
                          + Uses(Sync(resources), action) + Uses(LOOK, action)
    {
      UsesOfBoth([Work], [TELL_INDEX], action);
      UsesOfBoth([Work] + [TELL_INDEX], Sync(resources), action);
      UsesOfBoth([Work] + [TELL_INDEX] + Sync(resources), LOOK, action);
      UsesOfBoth([Work] + [TELL_INDEX] + Sync(resources) + LOOK, [TELL_INDEX], action);
      UsesOfOne(Work, action);
      UsesOfOne(TELL_INDEX, action);
    }
    forall action ensures Uses(Rescan(resources), action) ==
                          (if action == Work then 2 else 0) + (if action == TELL_INDEX then 2 + resources else 0)
                          + (if action == Lock || action == Unlock then 1 else 0) + 3 * Uses(READ_CACHE, action)
    {
      UsesOfSyncing(resources, action);
      UsesOfLooking(action);
    }
    UsesOfReading(Lock);
    UsesOfReading(Unlock);
    UsesOfReading(TELL_INDEX);
  }

  /** A sweep asks every target, and a watch event is handed to every recipient. */
  lemma {:induction false} EveryTargetIsAsked(targets: seq<(ClusterId, seq<bool>)>, resources: nat, i: nat)
    requires i < |targets|
    ensures Ask(Target(targets[i].0), Looks(targets[i].1)) in AskEach(targets)
    ensures Ask(Target(targets[i].0), Looks(targets[i].1)) in Sweep(targets, resources)
    decreases i
  {
    if i > 0 {
      EveryTargetIsAsked(targets[1..], resources, i - 1);
    }
  }

  lemma {:induction false} EveryRecipientIsHanded(recipients: seq<ClusterId>, i: nat)
    requires i < |recipients|
    ensures Hand(recipients[i]) in Hands(recipients)
    decreases i
  {
    if i > 0 {
      EveryRecipientIsHanded(recipients[1..], i - 1);
    }
  }

  lemma {:induction false} TimesAllowed(a: Actor, n: nat, rest: Script, locked: bool)
    requires MayAsk(a, Index, locked)
    ensures Allowed(a, Times(n, TELL_INDEX) + rest, locked) <==> Allowed(a, rest, locked)
  {
    if n == 0 {
      assert Times(n, TELL_INDEX) + rest == rest;
    } else {
      TimesAllowed(a, n - 1, rest, locked);
      TellsIndex();
      assert (Times(n, TELL_INDEX) + rest)[0] == TELL_INDEX;
      assert (Times(n, TELL_INDEX) + rest)[1..] == Times(n - 1, TELL_INDEX) + rest;
    }
  }

  lemma TellsIndex()
    ensures Allowed(Index, [Work], false)
  {
    WorkAllowed(Index);
  }

  lemma {:induction false} HandsAllowed(recipients: seq<ClusterId>)
    ensures Allowed(Index, Hands(recipients), false)
  {
    if recipients != [] {
      HandsAllowed(recipients[1..]);
      assert Hands(recipients)[1..] == Hands(recipients[1..]);
    }
  }

  lemma SyncAllowed(a: Actor, resources: nat, rest: Script)
    requires MayLock(a) && Allowed(a, rest, false)
    ensures Allowed(a, Sync(resources) + rest, false)
  {
    ListingAllowed(a, resources, rest);
    ReadCacheAllowed(a, Listing(resources) + rest);
    assert Sync(resources) + rest == READ_CACHE + (Listing(resources) + rest);
  }

  lemma ListingAllowed(a: Actor, resources: nat, rest: Script)
    requires MayLock(a) && Allowed(a, rest, false)
    ensures Allowed(a, Listing(resources) + rest, false)
  {
    var tail := [Unlock] + rest;
    assert tail[0] == Unlock && tail[1..] == rest && Allowed(a, tail, true);
    TimesAllowed(a, resources, tail, true);
    var script := Listing(resources) + rest;
    assert script[0] == Lock && script[1..] == Times(resources, TELL_INDEX) + tail;
  }

  lemma ReadCacheAllowed(a: Actor, rest: Script)
    requires MayLock(a) && Allowed(a, rest, false)
    ensures Allowed(a, READ_CACHE + rest, false)
  {
    var script := READ_CACHE + rest;
    var working, unlocking := script[1..], script[2..];
    assert script[3..] == rest && unlocking[1..] == rest && unlocking[0] == Unlock && Allowed(a, unlocking, true);
    assert working[1..] == unlocking && working[0] == Work && Allowed(a, working, true);
    assert script[0] == Lock;
  }

  lemma LookAllowed(id: ClusterId, rest: Script)
    requires Allowed(Target(id), rest, false)
    ensures Allowed(Target(id), LOOK + rest, false)
  {
    ReadCacheAllowed(Target(id), rest);
    ReadCacheAllowed(Target(id), READ_CACHE + rest);
    var twice := READ_CACHE + (READ_CACHE + rest);
    assert LOOK + rest == [Work] + twice && ([Work] + twice)[1..] == twice;
  }

  lemma FailedLookAllowed(id: ClusterId, rest: Script)
    requires Allowed(Target(id), rest, false)
    ensures Allowed(Target(id), FAILED_LOOK + rest, false)
  {
    ReadCacheAllowed(Target(id), rest);
    var once := READ_CACHE + rest;
    assert FAILED_LOOK + rest == [Work] + once && ([Work] + once)[1..] == once;
  }

  lemma {:induction false} LooksAllowed(id: ClusterId, succeed: seq<bool>)
    ensures Allowed(Target(id), Looks(succeed), false)
    decreases |succeed|
  {
    if succeed == [] {
      TellsIndex();
      assert Looks(succeed)[1..] == [] && Allowed(Target(id), [], false);
    } else {
      LooksAllowed(id, succeed[1..]);
      LookAllowed(id, Looks(succeed[1..]));
      FailedLookAllowed(id, Looks(succeed[1..]));
    }
  }

  lemma {:induction false} AskEachAllowed(n: nat, targets: seq<(ClusterId, seq<bool>)>)
    ensures Allowed(Client(n), AskEach(targets), false)
    decreases |targets|
  {
    if targets != [] {
      LooksAllowed(targets[0].0, targets[0].1);
      AskEachAllowed(n, targets[1..]);
      assert AskEach(targets)[1..] == AskEach(targets[1..]);
    }
  }

  lemma RescanAllowed(id: ClusterId, resources: nat)
    ensures Allowed(Target(id), Rescan(resources), false)
  {
    var a, tail := Target(id), LOOK + [TELL_INDEX];
    TellsIndex();
    assert [TELL_INDEX][1..] == [] && Allowed(a, [TELL_INDEX], false);
    LookAllowed(id, [TELL_INDEX]);
    SyncAllowed(a, resources, tail);
    var script := Rescan(resources);
    assert script[1..][1..] == Sync(resources) + tail && script[1..][0] == TELL_INDEX;
    assert Allowed(a, script[1..], false);
  }

  // ---------- operations that stop early ----------

  predicate LockedAfter(script: Script, locked: bool) {
    if script == [] then locked
    else LockedAfter(script[1..], if script[0].Lock? then true else if script[0].Unlock? then false else locked)
  }

  /** The part of a script that is carried out when it fails on the way: up to somewhere the lock is free. */
  predicate Stops(script: Script, part: Script) {
    part <= script && !LockedAfter(part, false)
  }

  ghost predicate AllowedThroughout(a: Actor, script: Script) {
    forall part :: Stops(script, part) ==> Allowed(a, part, false)
  }

  lemma {:induction false} PartAllowed(a: Actor, script: Script, part: Script, locked: bool)
    requires Allowed(a, script, locked) && part <= script && !LockedAfter(part, locked)
    ensures Allowed(a, part, locked)
    decreases |part|
  {
    if part != [] {
      var next := if part[0].Lock? then true else if part[0].Unlock? then false else locked;
      PartAllowed(a, script[1..], part[1..], next);
    }
  }

  lemma StoppingIsAllowed(a: Actor, script: Script)
    requires Allowed(a, script, false)
    ensures AllowedThroughout(a, script)
  {
    forall part | Stops(script, part) ensures Allowed(a, part, false) {
      PartAllowed(a, script, part, false);
    }
  }

  /** Every operation of the original keeps to the rules, however many targets, instances and resources there are and
      wherever it fails, so the theorems above are about them: commands that merge or replace, commands that delete,
      sweeps, watch events and deliveries. */
  lemma OperationsAreAllowed(n: nat, id: ClusterId, targets: seq<(ClusterId, seq<bool>)>, recipients: seq<ClusterId>,
                             resources: nat, ensured: Script, rescanned: Script, deleted: Script)
    requires Stops(ADD_TARGET, ensured) || Stops(CONNECT_AND_ADD, ensured)
    requires Stops(Rescan(resources), rescanned) && Stops(DELETE, deleted)
    ensures AllowedThroughout(Client(n), Command(id, ensured, rescanned))
    ensures AllowedThroughout(Client(n), Command(id, [Work], deleted))
    ensures AllowedThroughout(Client(n), Sweep(targets, resources))
    ensures AllowedThroughout(Watcher(n), WatchEvent(recipients))
    ensures AllowedThroughout(Target(id), APPLY_CHANGE)
  {
    EnsureAllowed(ensured);
    RescanAllowed(id, resources);
    PartAllowed(Target(id), Rescan(resources), rescanned, false);
    CommandAllowed(n, id, ensured, rescanned);
    ApplyChangeAllowed(Target(id));
    PartAllowed(Target(id), DELETE, deleted, false);
    WorkAllowed(Registry);
    CommandAllowed(n, id, [Work], deleted);
    StoppingIsAllowed(Target(id), APPLY_CHANGE);
    SweepAllowed(n, targets, resources);
    StoppingIsAllowed(Client(n), Sweep(targets, resources));
    WatchEventAllowed(n, recipients);
    StoppingIsAllowed(Watcher(n), WatchEvent(recipients));
  }

  lemma WorkAllowed(a: Actor)
    ensures Allowed(a, [Work], false)
  {
    assert [Work][1..] == [] && Allowed(a, [], false);
  }

  lemma EnsureAllowed(ensured: Script)
    requires Stops(ADD_TARGET, ensured) || Stops(CONNECT_AND_ADD, ensured)
    ensures Allowed(Registry, ensured, false)
  {
    ApplyChangeAllowed(Registry);
    ReadCacheAllowed(Registry, ADD_TARGET);
    PartAllowed(Registry, if Stops(ADD_TARGET, ensured) then ADD_TARGET else CONNECT_AND_ADD, ensured, false);
  }

  lemma ApplyChangeAllowed(a: Actor)
    requires MayAsk(a, Index, false)
    ensures Allowed(a, [Work, TELL_INDEX], false)
  {
    TellsIndex();
    var script := [Work, TELL_INDEX];
    assert script[1..] == [TELL_INDEX] && [TELL_INDEX][1..] == [] && Allowed(a, [], false);
    assert Allowed(a, [TELL_INDEX], false);
  }

  lemma CommandAllowed(n: nat, id: ClusterId, ensured: Script, done: Script)
    requires Allowed(Registry, ensured, false) && Allowed(Target(id), done, false)
    ensures AllowedThroughout(Client(n), Command(id, ensured, done))
  {
    var script := Command(id, ensured, done);
    assert script[1..][1..] == [] && Allowed(Client(n), [], false);
    assert Allowed(Client(n), script[1..], false);
    StoppingIsAllowed(Client(n), script);
  }

  lemma SweepAllowed(n: nat, targets: seq<(ClusterId, seq<bool>)>, resources: nat)
    ensures Allowed(Client(n), Sweep(targets, resources), false)
  {
    AskEachAllowed(n, targets);
    SyncAllowed(Client(n), resources, AskEach(targets));
    var script := Sweep(targets, resources);
    assert script[1..] == Sync(resources) + AskEach(targets);
    WorkAllowed(Registry);
  }

  lemma WatchEventAllowed(n: nat, recipients: seq<ClusterId>)
    ensures Allowed(Watcher(n), WatchEvent(recipients), false)
  {
    TellsIndex();
    HandsAllowed(recipients);
    var a, script := Watcher(n), WatchEvent(recipients);
    assert script[3..][1..] == [] && Allowed(a, script[3..], true);
    assert script[2..][1..] == script[3..] && Allowed(a, script[2..], true);
    assert script[1..][1..] == script[2..] && Allowed(a, script[1..], true);
  }

  /** The rules matter: were the index to call back into the cache while a watch event waits for it under the lock, both
      would wait for ever. */
  lemma CallingBackWouldDeadlock(s: System)
    requires s.folding == {} && s.threads.Keys == {Watcher(0), Index} && s.lock == Some(Watcher(0))
    requires s.threads[Watcher(0)].waiting == Some(Index) && HeadIs(s, Index, Lock)
    ensures forall step: Step :: step.Internal() ==> !Enabled(s, step)
    ensures !Sound(s)
  {
    assert !SoundAt(s, Index);
  }
}
