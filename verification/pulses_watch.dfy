/**
 * Part two of the pulse network (20p2.py): the same modules, but the
 * button is pressed until some module sends a low pulse to `rx`, which
 * raises `Done`; the answer is the number of presses, that one included.
 * The module colours the source uses for its drawings are modelled too.
 */
module PulsesWatch {
  import opened Outcomes
  import opened Dicts
  import opened Pulses

  /** A low pulse addressed to `rx`: sending one raises `Done`. */
  predicate SignalsRx(p: Pulse)
  {
    p.target == "rx" && !p.high
  }

  /** Some module lists `rx` among its targets. */
  predicate FeedsRx(net: Network)
  {
    exists k :: k in net.entries && "rx" in net.entries[k].targets
  }

  /** How one press of part two ends: the queue empties, leaving the
      network as it is, or `Done` is raised. */
  datatype Watched = Calm(net: Network) | Signalled

  /** The loop of `_pulse` in 20p2.py under a bound on the pulses handled:
      as in part one, except that a low pulse to `rx` raises `Done` as
      soon as the receiver sends it, before it is queued. */
  function DrainWatch(net: Network, queue: seq<Pulse>, fuel: nat): (r: Run<Watched>)
    ensures r.Ended? && r.outcome.Err? ==> r.outcome.error == AssertionError
    ensures r == Ended(Ok(Signalled)) ==> FeedsRx(net)
    decreases fuel
  {
    if |queue| == 0 then Ended(Ok(Calm(net)))
    else if fuel == 0 then Unfinished
    else
      match Deliver(net, queue[0])
      case Err(e) => Ended(Err(e))
      case Ok(step) =>
        if exists i :: 0 <= i < |step.1| && SignalsRx(step.1[i]) then
          assert queue[0].target in net.entries;
          Ended(Ok(Signalled))
        else
          DeliverKeeps(net, queue[0]);
          DrainWatch(step.0, queue[1..] + step.1, fuel - 1)
  }

  /** One press of part two. */
  function PressWatch(net: Network, fuel: nat): (r: Run<Watched>)
    ensures r.Ended? && r.outcome.Err? ==> r.outcome.error == AssertionError
    ensures r == Ended(Ok(Signalled)) ==> FeedsRx(net)
  {
    DrainWatch(net, [ButtonPulse], fuel)
  }

  /** Until `Done` is raised the watched loop is part one's loop: it ends
      calm exactly where part one's ends, fails with the same error, and
      runs out of fuel together with it. */
  lemma {:induction false} WatchAgrees(net: Network, queue: seq<Pulse>, fuel: nat)
    ensures DrainWatch(net, queue, fuel) != Ended(Ok(Signalled)) ==>
      match DrainWatch(net, queue, fuel)
      case Ended(Ok(w)) => Drain(net, queue, fuel).Ended? && Drain(net, queue, fuel).outcome.Ok?
                           && Drain(net, queue, fuel).outcome.value.net == w.net
      case Ended(Err(e)) => Drain(net, queue, fuel) == Ended(Err(e))
      case Unfinished => Drain(net, queue, fuel) == Unfinished
    decreases fuel
  {
    if |queue| > 0 && fuel > 0 {
      var d := Deliver(net, queue[0]);
      if d.Ok? {
        WatchAgrees(d.value.0, queue[1..] + d.value.1, fuel - 1);
      }
    }
  }

  /** `Document.pulses` of 20p2.py under a bound of `limit` more presses:
      count the press, run it, and stop with the count once one raises
      `Done`. */
  function PressesUntilRx(net: Network, pressed: nat, limit: nat, fuel: nat): (r: Run<nat>)
    ensures r.Ended? && r.outcome.Err? ==> r.outcome.error == AssertionError
    ensures r.Ended? && r.outcome.Ok? ==> pressed < r.outcome.value <= pressed + limit
    decreases limit
  {
    if limit == 0 then Unfinished
    else
      match PressWatch(net, fuel)
      case Ended(Ok(Signalled)) => Ended(Ok(pressed + 1))
      case Ended(Ok(Calm(after))) => PressesUntilRx(after, pressed + 1, limit - 1, fuel)
      case Ended(Err(e)) => Ended(Err(e))
      case Unfinished => Unfinished
  }

  /** Two runs of part one's presses end alike, leaving the same network. */
  predicate SameEnd(a: Run<Tally>, b: Run<Tally>)
  {
    a.Ended? == b.Ended?
    && (a.Ended? ==> a.outcome.Ok? == b.outcome.Ok?)
    && (a.Ended? && a.outcome.Ok? ==> a.outcome.value.net == b.outcome.value.net)
  }

  /** Part one's presses leave the same network whatever totals they start from. */
  lemma {:induction false} PressesNet(a: Tally, b: Tally, count: nat, fuel: nat)
    requires a.net == b.net
    ensures SameEnd(Presses(a, count, fuel), Presses(b, count, fuel))
    decreases count
  {
    if count > 0 {
      var step := Press(a.net, fuel);
      if step.Ended? && step.outcome.Ok? {
        PressesNet(Combine(a, step.outcome.value), Combine(b, step.outcome.value), count - 1, fuel);
      }
    }
  }

  /** Part one's presses from no pulses counted. */
  function PressedFrom(net: Network, count: nat, fuel: nat): Run<Tally>
  {
    Presses(Tally(net, 0, 0), count, fuel)
  }

  /** Pressing once, then `count` times, is pressing `count + 1` times. */
  lemma PressedOnce(net: Network, count: nat, fuel: nat)
    requires Press(net, fuel).Ended? && Press(net, fuel).outcome.Ok?
    ensures SameEnd(PressedFrom(net, count + 1, fuel), PressedFrom(Press(net, fuel).outcome.value.net, count, fuel))
  {
    var t := Press(net, fuel).outcome.value;
    assert PressedFrom(net, count + 1, fuel) == Presses(Combine(Tally(net, 0, 0), t), count, fuel);
    PressesNet(Combine(Tally(net, 0, 0), t), Tally(t.net, 0, 0), count, fuel);
  }

  /** Part one's presses end, and the next press of part two ends calm. */
  predicate CalmAfter(run: Run<Tally>, fuel: nat)
  {
    run.Ended? && run.outcome.Ok?
    && var w := PressWatch(run.outcome.value.net, fuel);
    w.Ended? && w.outcome.Ok? && w.outcome.value.Calm?
  }

  /** The answer of part two is the first press that raises `Done`: every
      press before it runs to the end, as in part one, without raising,
      and the press after them raises. */
  lemma {:induction false} UntilRxFirst(net: Network, pressed: nat, limit: nat, fuel: nat)
    requires PressesUntilRx(net, pressed, limit, fuel).Ended?
    requires PressesUntilRx(net, pressed, limit, fuel).outcome.Ok?
    ensures var n := PressesUntilRx(net, pressed, limit, fuel).outcome.value - pressed - 1;
      && PressedFrom(net, n, fuel).Ended? && PressedFrom(net, n, fuel).outcome.Ok?
      && PressWatch(PressedFrom(net, n, fuel).outcome.value.net, fuel) == Ended(Ok(Signalled))
    ensures var n := PressesUntilRx(net, pressed, limit, fuel).outcome.value - pressed - 1;
      forall k :: 0 <= k < n ==> CalmAfter(PressedFrom(net, k, fuel), fuel)
    decreases limit
  {
    var w := PressWatch(net, fuel);
    if w != Ended(Ok(Signalled)) {
      var n := PressesUntilRx(net, pressed, limit, fuel).outcome.value - pressed - 1;
      assert w.Ended? && w.outcome.Ok? && w.outcome.value.Calm?;
      var after := w.outcome.value.net;
      WatchAgrees(net, [ButtonPulse], fuel);
      assert Press(net, fuel).outcome.value.net == after;
      assert PressesUntilRx(after, pressed + 1, limit - 1, fuel).outcome.value - (pressed + 1) - 1 == n - 1;
      UntilRxFirst(after, pressed + 1, limit - 1, fuel);
      UntilRxShift(net, n, fuel);
      CalmShift(net, n, fuel);
    } else {
      assert PressesUntilRx(net, pressed, limit, fuel).outcome.value == pressed + 1;
      assert PressedFrom(net, 0, fuel) == Ended(Ok(Tally(net, 0, 0)));
    }
  }

  /** A first press, then `n - 1` presses and a signalling one, is `n`
      presses from the start followed by a signalling one. */
  lemma UntilRxShift(net: Network, n: nat, fuel: nat)
    requires n > 0 && Press(net, fuel).Ended? && Press(net, fuel).outcome.Ok?
    requires var after := Press(net, fuel).outcome.value.net;
      && PressedFrom(after, n - 1, fuel).Ended? && PressedFrom(after, n - 1, fuel).outcome.Ok?
      && PressWatch(PressedFrom(after, n - 1, fuel).outcome.value.net, fuel) == Ended(Ok(Signalled))
    ensures PressedFrom(net, n, fuel).Ended? && PressedFrom(net, n, fuel).outcome.Ok?
    ensures PressWatch(PressedFrom(net, n, fuel).outcome.value.net, fuel) == Ended(Ok(Signalled))
  {
    var after := Press(net, fuel).outcome.value.net;
    var a := PressedFrom(net, n, fuel);
    var b := PressedFrom(after, n - 1, fuel);
    PressedOnce(net, n - 1, fuel);
    assert SameEnd(a, b);
    SignalCarries(a, b, fuel);
  }

  /** Runs that end alike leave a network that signals alike. */
  lemma SignalCarries(a: Run<Tally>, b: Run<Tally>, fuel: nat)
    requires SameEnd(a, b) && b.Ended? && b.outcome.Ok?
    requires PressWatch(b.outcome.value.net, fuel) == Ended(Ok(Signalled))
    ensures a.Ended? && a.outcome.Ok? && PressWatch(a.outcome.value.net, fuel) == Ended(Ok(Signalled))
  {
  }

  /** Calm presses after a first calm press are calm presses from the start. */
  lemma CalmShift(net: Network, n: nat, fuel: nat)
    requires Press(net, fuel).Ended? && Press(net, fuel).outcome.Ok?
    requires CalmAfter(PressedFrom(net, 0, fuel), fuel)
    requires forall k :: 0 <= k < n - 1 ==> CalmAfter(PressedFrom(Press(net, fuel).outcome.value.net, k, fuel), fuel)
    ensures forall k :: 0 <= k < n ==> CalmAfter(PressedFrom(net, k, fuel), fuel)
  {
    forall k | 0 < k < n
      ensures CalmAfter(PressedFrom(net, k, fuel), fuel)
    {
      PressedOnce(net, k - 1, fuel);
    }
  }

  /** The colour `color` gives a module in the drawings. */
  datatype Colour = Red | Black

  /** `color` of 20p2.py: red for a flip-flop that is on or a conjunction
      whose remembered levels are all high, black otherwise and for the
      broadcaster. */
  function ColourOf(m: Module): (r: Colour)
    ensures r == Red <==> (m.FlipFlop? && m.on) || (m.Conjunction? && AllHigh(m.incoming))
  {
    match m
    case FlipFlop(_, on) => if on then Red else Black
    case Conjunction(_, incoming) => if AllHigh(incoming) then Red else Black
    case Broadcaster(_) => Black
  }

  /** The colour tells what a module just sent: a flip-flop that sent
      anything sent high exactly when it is now red, and a conjunction
      sent low exactly when it is now red. */
  lemma ColourSent(m: Module, name: string, source: string, high: bool)
    requires Receive(m, name, source, high).Ok? && !m.Broadcaster?
    ensures var got := Receive(m, name, source, high).value;
      forall i :: 0 <= i < |got.1| ==>
        (got.1[i].high <==> (ColourOf(got.0) == Red) == m.FlipFlop?)
  {
  }
}
