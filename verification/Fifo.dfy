/** What the reference queue engine of src/openflash/queue.py is for: commands are executed in
    submission order and their completions come back in that order. The state is the unbounded
    history; the engine keeps only rings, indices and phases of it. */
module Fifo {
  import opened Common
  import opened Abi
  import opened ReferenceDevice
  import opened Ring

  type Cmd = Abi.Command

  /** `seen[i]` are the buffers the i-th executed command found. */
  datatype Queue = Queue(depth: nat, dev: Ref, submitted: seq<Cmd>, answered: seq<Completion>, seen: seq<Dma>,
                         consumed: nat, interrupts: nat)
  {
    predicate Sane() {
      depth >= 2 && consumed <= |answered| <= |submitted| <= |answered| + depth && |answered| <= consumed + depth && |seen| == |answered|
    }

    function Pending(): int {
      |submitted| - |answered|
    }

    function Waiting(): int {
      |answered| - consumed
    }
  }

  function Empty(depth: nat, dev: Ref): Queue {
    Queue(depth, dev, [], [], [], 0, 0)
  }

  /** The device's completion as the n-th entry of the ring: head index and phase tag filled in. */
  function Stamp(c: Completion, n: nat, depth: nat): Completion
    requires depth > 0
  {
    c.(sqHead := (n + 1) % depth, flags := c.flags - c.flags % 2 + Phase(n, depth))
  }

  /** A full queue refuses the command; otherwise its slot is reported. */
  function Submit(q: Queue, c: Cmd): (Queue, Option<nat>)
    requires q.depth > 0
  {
    if q.Pending() == q.depth then (q, None) else (q.(submitted := q.submitted + [c]), Some(|q.submitted| % q.depth))
  }

  function AnswerOne(q: Queue, dma: Dma): (Queue, Dma)
    requires q.depth > 0 && |q.answered| < |q.submitted|
  {
    var n := |q.answered|;
    var (dev, dma', c) := Execute(q.dev, q.submitted[n], dma);
    (q.(dev := dev, answered := q.answered + [Stamp(c, n, q.depth)], seen := q.seen + [dma]), dma')
  }

  function Answer(q: Queue, dma: Dma, k: nat): (Queue, Dma)
    requires q.depth > 0 && |q.answered| + k <= |q.submitted|
    decreases k
  {
    if k == 0 then (q, dma)
    else
      var (q', dma') := AnswerOne(q, dma);
      Answer(q', dma', k - 1)
  }

  function Limit(depth: nat, budget: Option<int>): nat {
    match budget
    case None => depth
    case Some(b) => if b < 0 then 0 else b
  }

  function Min(a: int, b: int): int {
    if a < b then a else b
  }

  /** How many commands a doorbell processes. */
  function Batch(q: Queue, budget: Option<int>): (k: nat)
    requires q.Sane()
    ensures |q.answered| + k <= |q.submitted|
  {
    Min(Limit(q.depth, budget), Min(q.Pending(), q.depth - q.Waiting()))
  }

  /** The batch in plain numbers: all that is pending and fits, or what the budget allows of it. */
  lemma BatchIs(q: Queue, budget: Option<int>)
    requires q.Sane()
    ensures var most := if q.Pending() < q.depth - q.Waiting() then q.Pending() else q.depth - q.Waiting();
            && (budget.None? ==> Batch(q, budget) == most)
            && (budget.Some? ==> Batch(q, budget) == if budget.value < 0 then 0 else if budget.value < most then budget.value else most)
  {
  }

  /** One interrupt per doorbell that processed anything. */
  function Doorbell(q: Queue, dma: Dma, budget: Option<int>): (Queue, Dma)
    requires q.Sane()
  {
    var k := Batch(q, budget);
    var (q', dma') := Answer(q, dma, k);
    (if k > 0 then q'.(interrupts := q'.interrupts + 1) else q', dma')
  }

  function Consume(q: Queue): (Queue, Option<Completion>)
    requires q.Sane()
  {
    if q.Waiting() == 0 then (q, None) else (q.(consumed := q.consumed + 1), Some(q.answered[q.consumed]))
  }

  // ----- runs

  datatype Event = SubmitEvent(command: Cmd) | RingDoorbell(dma: Dma, budget: Option<int>) | ConsumeEvent

  function Step(q: Queue, e: Event): (Queue, seq<Completion>)
    requires q.Sane()
  {
    match e
    case SubmitEvent(c) => (Submit(q, c).0, [])
    case RingDoorbell(dma, budget) => (Doorbell(q, dma, budget).0, [])
    case ConsumeEvent => (var (q', c) := Consume(q); (q', if c.Some? then [c.value] else []))
  }

  lemma {:induction false} AnswerSane(q: Queue, dma: Dma, k: nat)
    requires q.Sane() && k <= q.Pending() && k <= q.depth - q.Waiting()
    ensures var q' := Answer(q, dma, k).0;
            && q'.Sane() && q'.depth == q.depth && q'.submitted == q.submitted && q'.consumed == q.consumed && q'.interrupts == q.interrupts
            && |q'.answered| == |q.answered| + k && q.answered <= q'.answered
    decreases k
  {
    if k > 0 {
      var (q', dma') := AnswerOne(q, dma);
      AnswerSane(q', dma', k - 1);
    }
  }

  lemma StepSane(q: Queue, e: Event)
    requires q.Sane()
    ensures Step(q, e).0.Sane() && Step(q, e).0.depth == q.depth
  {
    if e.RingDoorbell? {
      AnswerSane(q, e.dma, Batch(q, e.budget));
    }
  }

  /** The state after a run and everything it consumed, in order. */
  function Run(q: Queue, events: seq<Event>): (r: (Queue, seq<Completion>))
    requires q.Sane()
    ensures r.0.Sane()
    decreases |events|
  {
    if events == [] then (q, [])
    else
      StepSane(q, events[0]);
      var (q', out) := Step(q, events[0]);
      var (last, rest) := Run(q', events[1..]);
      (last, out + rest)
  }

  /** The completions of executing `cmds` one after the other, each finding its buffers. */
  function Replay(dev: Ref, cmds: seq<Cmd>, dmas: seq<Dma>, depth: nat): (r: (Ref, seq<Completion>))
    requires |cmds| == |dmas| && depth > 0
    ensures |r.1| == |cmds|
  {
    if cmds == [] then (dev, [])
    else
      var n := |cmds| - 1;
      var (before, done) := Replay(dev, cmds[..n], dmas[..n], depth);
      var (after, _, c) := Execute(before, cmds[n], dmas[n]);
      (after, done + [Stamp(c, n, depth)])
  }

  /** The answers so far, and the device, are those of running the commands in order from `dev0`. */
  ghost predicate InOrder(q: Queue, dev0: Ref) {
    q.Sane() && Replay(dev0, q.submitted[..|q.answered|], q.seen, q.depth) == (q.dev, q.answered)
  }

  lemma AnswerOneInOrder(q: Queue, dev0: Ref, dma: Dma)
    requires InOrder(q, dev0) && q.Pending() > 0 && q.Waiting() < q.depth
    ensures InOrder(AnswerOne(q, dma).0, dev0)
  {
    var q' := AnswerOne(q, dma).0;
    var n := |q.answered|;
    assert q'.submitted[..n + 1][..n] == q.submitted[..n];
    assert q'.seen[..n] == q.seen;
  }

  lemma {:induction false} AnswerInOrder(q: Queue, dev0: Ref, dma: Dma, k: nat)
    requires InOrder(q, dev0) && k <= q.Pending() && k <= q.depth - q.Waiting()
    ensures InOrder(Answer(q, dma, k).0, dev0)
    decreases k
  {
    if k > 0 {
      AnswerOneInOrder(q, dev0, dma);
      var (q', dma') := AnswerOne(q, dma);
      AnswerInOrder(q', dev0, dma', k - 1);
    }
  }

  lemma StepInOrder(q: Queue, dev0: Ref, e: Event)
    requires InOrder(q, dev0)
    ensures InOrder(Step(q, e).0, dev0)
  {
    match e
    case SubmitEvent(c) =>
      assert (q.submitted + [c])[..|q.answered|] == q.submitted[..|q.answered|];
    case RingDoorbell(dma, budget) =>
      AnswerInOrder(q, dev0, dma, Batch(q, budget));
    case ConsumeEvent =>
  }

  lemma StepOutput(q: Queue, e: Event)
    requires q.Sane()
    ensures var (q', out) := Step(q, e);
            q.consumed <= q'.consumed <= |q'.answered| && q.answered <= q'.answered && out == q'.answered[q.consumed..q'.consumed]
  {
    if e.RingDoorbell? {
      AnswerSane(q, e.dma, Batch(q, e.budget));
    }
  }

  lemma {:induction false} RunOutput(q: Queue, dev0: Ref, events: seq<Event>)
    requires InOrder(q, dev0)
    ensures var (last, out) := Run(q, events);
            && InOrder(last, dev0) && q.consumed <= last.consumed <= |last.answered| && q.answered <= last.answered
            && out == last.answered[q.consumed..last.consumed]
    decreases |events|
  {
    if events != [] {
      StepInOrder(q, dev0, events[0]);
      StepOutput(q, events[0]);
      StepSane(q, events[0]);
      var (q', out) := Step(q, events[0]);
      RunOutput(q', dev0, events[1..]);
      var last := Run(q', events[1..]).0;
      SplitOutput(q'.answered, last.answered, q.consumed, q'.consumed, last.consumed);
    }
  }

  lemma SplitOutput(a: seq<Completion>, b: seq<Completion>, i: nat, j: nat, k: nat)
    requires a <= b && i <= j <= |a| && j <= k <= |b|
    ensures a[i..j] + b[j..k] == b[i..k]
  {
  }

  /** In every run from an empty queue the n-th completion consumed is the answer to the n-th
      command submitted, all commands run in order on the device. */
  lemma RunAnswersInOrder(depth: nat, dev0: Ref, events: seq<Event>)
    requires depth >= 2
    ensures var (q, out) := Run(Empty(depth, dev0), events);
            && |out| <= |q.answered| && |q.answered| <= |q.submitted| && |q.seen| == |q.answered|
            && out == Replay(dev0, q.submitted[..|q.answered|], q.seen, depth).1[..|out|]
            && q.dev == Replay(dev0, q.submitted[..|q.answered|], q.seen, depth).0
  {
    RunOutput(Empty(depth, dev0), dev0, events);
    RunDepth(Empty(depth, dev0), events);
  }

  /** Each completion echoes its command and carries the number of commands retired, as a ring index,
      and the phase of its own wrap. */
  lemma {:induction false} ReplayFields(dev: Ref, cmds: seq<Cmd>, dmas: seq<Dma>, depth: nat, i: nat)
    requires |cmds| == |dmas| && depth > 0 && i < |cmds|
    ensures var c := Replay(dev, cmds, dmas, depth).1[i];
            c.cid == cmds[i].cid && c.userData == cmds[i].userData && c.sqHead == (i + 1) % depth && c.flags == 1 - i / depth % 2
    decreases |cmds|
  {
    var n := |cmds| - 1;
    if i < n { ReplayFields(dev, cmds[..n], dmas[..n], depth, i); }
  }

  lemma RunStamps(depth: nat, dev0: Ref, events: seq<Event>, i: nat)
    requires depth >= 2 && i < |Run(Empty(depth, dev0), events).1|
    ensures var (q, out) := Run(Empty(depth, dev0), events);
            && i < |q.submitted|
            && out[i].cid == q.submitted[i].cid && out[i].userData == q.submitted[i].userData
            && out[i].sqHead == (i + 1) % depth && out[i].flags == 1 - i / depth % 2
  {
    RunAnswersInOrder(depth, dev0, events);
    var q := Run(Empty(depth, dev0), events).0;
    ReplayFields(dev0, q.submitted[..|q.answered|], q.seen, depth, i);
  }

  lemma {:induction false} RunDepth(q: Queue, events: seq<Event>)
    requires q.Sane()
    ensures Run(q, events).0.depth == q.depth
    decreases |events|
  {
    if events != [] {
      StepSane(q, events[0]);
      RunDepth(Step(q, events[0]).0, events[1..]);
    }
  }
}
