/** The operating system as the executor sees it: a clock, signals, waits and external commands.
    A world is one complete behaviour of the environment; statements for all worlds cover every behaviour. */
module Host {
  import opened Lists

  datatype Signal = Probe | Term | Kill

  /** Answer to a signal: the process handle could not be obtained, the signal was sent,
      the process had already finished, or the system refused. */
  datatype Reply = NotFound | Delivered | Gone | Refused

  datatype Sender = ByPolicy(name: string) | ByRequest

  datatype Event =
    | Attempt(tick: nat, at: int, sender: Sender, pid: int, signal: Signal, reply: Reply)
    | Wait(tick: nat, duration: int, from: int, until: int, cancelled: bool)
    | Command(tick: nat, at: int, action: string, pids: seq<int>, ok: bool)

  /** Everything the environment decides, indexed by a counter of host operations:
      how much time passes, how signals are answered, whether a wait is cancelled and how much later than due it ends,
      whether commands succeed, and which processes are alive. */
  datatype World = World(
    delay: nat -> nat,
    reply: (nat, int, Signal) -> Reply,
    cancelled: nat -> bool,
    succeeds: nat -> bool,
    alive: (nat, int) -> bool)

  function Max0(n: int): nat {
    if n > 0 then n else 0
  }

  class Host {
    const world: World
    var clock: int
    var ticks: nat
    var trace: seq<Event>

    constructor (world: World, clock: int)
      ensures this.world == world && this.clock == clock && ticks == 0 && trace == []
    {
      this.world, this.clock, ticks, trace := world, clock, 0, [];
    }

    /** time.Now(). */
    method Now() returns (now: int)
      modifies this
      ensures now == clock == old(clock) + world.delay(old(ticks)) && ticks == old(ticks) + 1 && trace == old(trace)
    {
      clock := clock + world.delay(ticks);
      ticks := ticks + 1;
      now := clock;
    }

    /** os.FindProcess followed by Process.Signal. */
    method Send(sender: Sender, pid: int, signal: Signal) returns (reply: Reply)
      modifies this
      ensures reply == world.reply(old(ticks), pid, signal)
      ensures clock == old(clock) + world.delay(old(ticks)) && ticks == old(ticks) + 1
      ensures trace == old(trace) + [Attempt(old(ticks), clock, sender, pid, signal, reply)]
    {
      reply := world.reply(ticks, pid, signal);
      clock := clock + world.delay(ticks);
      trace := trace + [Attempt(ticks, clock, sender, pid, signal, reply)];
      ticks := ticks + 1;
    }

    /** Waits for a duration or for cancellation. A timer never fires early. */
    method Sleep(duration: int) returns (cancelled: bool)
      modifies this
      ensures cancelled == world.cancelled(old(ticks))
      ensures clock == old(clock) + world.delay(old(ticks)) + if cancelled then 0 else Max0(duration)
      ensures ticks == old(ticks) + 1
      ensures trace == old(trace) + [Wait(old(ticks), duration, old(clock), clock, cancelled)]
    {
      cancelled := world.cancelled(ticks);
      var from := clock;
      clock := clock + world.delay(ticks) + if cancelled then 0 else Max0(duration);
      trace := trace + [Wait(ticks, duration, from, clock, cancelled)];
      ticks := ticks + 1;
    }

    /** An external command or file operation, on behalf of an action and about some processes. */
    method Run(action: string, pids: seq<int>) returns (ok: bool)
      modifies this
      ensures ok == world.succeeds(old(ticks))
      ensures clock == old(clock) + world.delay(old(ticks)) && ticks == old(ticks) + 1
      ensures trace == old(trace) + [Command(old(ticks), clock, action, pids, ok)]
    {
      ok := world.succeeds(ticks);
      clock := clock + world.delay(ticks);
      trace := trace + [Command(ticks, clock, action, pids, ok)];
      ticks := ticks + 1;
    }
  }

  // ---------------------------------------------------------------- traces

  function Start(e: Event): int {
    match e
    case Attempt(_, at, _, _, _, _) => at
    case Wait(_, _, from, _, _) => from
    case Command(_, at, _, _, _) => at
  }

  function End(e: Event): int {
    match e
    case Attempt(_, at, _, _, _, _) => at
    case Wait(_, _, _, until, _) => until
    case Command(_, at, _, _, _) => at
  }

  /** Events in order of time and of host operations. */
  ghost predicate Ordered(es: seq<Event>) {
    forall i, j :: 0 <= i < j < |es| ==> es[i].tick < es[j].tick && Start(es[i]) <= End(es[i]) <= Start(es[j]) <= End(es[j])
  }

  /** The answer recorded in an event is the world's, and a wait lasts exactly its duration
      and what the world adds, or only the latter when cancelled. */
  predicate Answered(world: World, e: Event) {
    match e
    case Attempt(tick, _, _, pid, signal, reply) => reply == world.reply(tick, pid, signal)
    case Wait(tick, duration, from, until, cancelled) =>
      cancelled == world.cancelled(tick) && until == from + world.delay(tick) + if cancelled then 0 else Max0(duration)
    case Command(tick, _, _, _, ok) => ok == world.succeeds(tick)
  }

  /** `es` is what happened, in order, between two states of the host, given by their operation counters and clocks. */
  ghost predicate Recorded(world: World, es: seq<Event>, t0: nat, c0: int, t1: nat, c1: int) {
    if es == [] then t0 <= t1 && c0 <= c1 else
      var e := Last(es);
      && t0 <= e.tick < t1 && c0 <= Start(e) <= End(e) <= c1
      && Answered(world, e)
      && Recorded(world, Init(es), t0, c0, e.tick, Start(e))
  }

  lemma RecordedAppend(world: World, es: seq<Event>, e: Event, t0: nat, c0: int, t1: nat, c1: int, t2: nat, c2: int)
    requires Recorded(world, es, t0, c0, t1, c1)
    requires t1 <= e.tick < t2 && c1 <= Start(e) <= End(e) <= c2 && Answered(world, e)
    ensures Recorded(world, es + [e], t0, c0, t2, c2)
  {
    assert Init(es + [e]) == es;
    RecordedSpan(world, es, t0, c0, t1, c1);
  }

  lemma {:induction false} RecordedSpan(world: World, es: seq<Event>, t0: nat, c0: int, t1: nat, c1: int)
    requires Recorded(world, es, t0, c0, t1, c1)
    ensures t0 <= t1 && c0 <= c1
  {
  }

  lemma {:induction false} RecordedConcat(
    world: World, a: seq<Event>, b: seq<Event>, t0: nat, c0: int, t1: nat, c1: int, t2: nat, c2: int)
    requires Recorded(world, a, t0, c0, t1, c1) && Recorded(world, b, t1, c1, t2, c2)
    ensures Recorded(world, a + b, t0, c0, t2, c2)
    decreases |b|
  {
    RecordedSpan(world, a, t0, c0, t1, c1);
    if b == [] {
      assert a + b == a;
    } else {
      var e := Last(b);
      RecordedConcat(world, a, Init(b), t0, c0, t1, c1, e.tick, Start(e));
      assert Init(a + b) == a + Init(b) && Last(a + b) == e;
    }
  }

  /** Recorded events are in order, and lie between the two states. */
  lemma {:induction false} RecordedOrdered(world: World, es: seq<Event>, t0: nat, c0: int, t1: nat, c1: int)
    requires Recorded(world, es, t0, c0, t1, c1)
    ensures Ordered(es)
    ensures forall i :: 0 <= i < |es| ==>
      Answered(world, es[i]) && t0 <= es[i].tick < t1 && c0 <= Start(es[i]) <= End(es[i]) <= c1
  {
    if es != [] {
      var e := Last(es);
      RecordedOrdered(world, Init(es), t0, c0, e.tick, Start(e));
      forall i | 0 <= i < |es| - 1
        ensures es[i] == Init(es)[i]
      {
      }
    }
  }

  predicate IsAttempt(e: Event, sender: Sender, pid: int, signal: Signal) {
    e.Attempt? && e.sender == sender && e.pid == pid && e.signal == signal
  }

  function DeliveredAs(signal: Signal): Event -> bool {
    (e: Event) => e.Attempt? && e.signal == signal && e.reply == Delivered
  }
}
