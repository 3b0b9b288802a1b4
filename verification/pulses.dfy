/**
 * The pulse network of day 20 (20.py, and the same modules in 20p2.py):
 * flip-flops, conjunctions and the broadcaster, wired by name; a button
 * press sends a low pulse to the broadcaster and pulses are then handled
 * first in, first out.
 */
module Pulses {
  import opened Outcomes
  import opened Dicts
  import opened Sorting

  /** Python's ordering of strings: code point by code point, a proper prefix first. */
  function CompareNames(a: string, b: string): int
  {
    if |a| == 0 then (if |b| == 0 then 0 else -1)
    else if |b| == 0 then 1
    else if a[0] != b[0] then a[0] as int - b[0] as int
    else CompareNames(a[1..], b[1..])
  }

  lemma {:induction false} CompareAntisymmetric(a: string, b: string)
    ensures Sign(CompareNames(a, b)) == -Sign(CompareNames(b, a))
    ensures CompareNames(a, b) == 0 <==> a == b
    decreases |a|
  {
    if |a| > 0 && |b| > 0 && a[0] == b[0] {
      CompareAntisymmetric(a[1..], b[1..]);
      assert a == [a[0]] + a[1..] && b == [b[0]] + b[1..];
    }
  }

  lemma {:induction false} CompareTransitive(a: string, b: string, c: string)
    requires CompareNames(a, b) <= 0 && CompareNames(b, c) <= 0
    ensures CompareNames(a, c) <= 0
    decreases |a|
  {
    if |a| > 0 && |b| > 0 && |c| > 0 && a[0] == b[0] && b[0] == c[0] {
      CompareTransitive(a[1..], b[1..], c[1..]);
    }
  }

  /** Names are totally ordered, so `sorted` has one answer. */
  lemma NamesOrdered(s: seq<string>)
    ensures Consistent(s, CompareNames) && Strict(s, CompareNames)
  {
    forall a, b | a in s && b in s
      ensures Sign(CompareNames(a, b)) == -Sign(CompareNames(b, a))
      ensures CompareNames(a, b) == 0 ==> a == b
    {
      CompareAntisymmetric(a, b);
    }
    forall a, b, c | a in s && b in s && c in s && CompareNames(a, b) <= 0 && CompareNames(b, c) <= 0
      ensures CompareNames(a, c) <= 0
    {
      CompareTransitive(a, b, c);
    }
  }

  /** `sorted(names)`: the names in Python's string order. */
  function SortNames(names: seq<string>): (r: seq<string>)
    ensures multiset(r) == multiset(names)
    ensures Sorted(r, CompareNames)
  {
    NamesOrdered(names);
    SortSorted(names, CompareNames);
    Sort(names, CompareNames)
  }

  /** A pulse in the queue: who sends it, to whom, and whether it is high. */
  datatype Pulse = Pulse(source: string, target: string, high: bool)

  /** The modules; each knows its targets, in order. A flip-flop remembers
      whether it is on; a conjunction, the latest level from each input. */
  datatype Module =
    | FlipFlop(targets: seq<string>, on: bool)
    | Conjunction(targets: seq<string>, incoming: Dict<string, bool>)
    | Broadcaster(targets: seq<string>)

  /** The modules by name, in the order the configuration lists them. */
  type Network = Dict<string, Module>

  /** One parsed line of the configuration: its prefix (`%`, `&` or none),
      the module's name and its targets. */
  datatype Spec = Spec(prefix: string, source: string, targets: seq<string>)

  /** The same level from `from` to every target, in order. */
  function Send(from: string, targets: seq<string>, high: bool): (r: seq<Pulse>)
    ensures |r| == |targets|
    ensures forall i :: 0 <= i < |r| ==> r[i] == Pulse(from, targets[i], high)
  {
    seq(|targets|, i requires 0 <= i < |targets| => Pulse(from, targets[i], high))
  }

  /** `all(incoming.values())`. */
  predicate AllHigh(memory: Dict<string, bool>)
  {
    forall k :: k in memory.entries ==> memory.entries[k]
  }

  /** The same kind of module with the same targets and, for a conjunction,
      the same inputs in the same order. */
  predicate SameWiring(m: Module, n: Module)
  {
    match m
    case FlipFlop(targets, _) => n.FlipFlop? && n.targets == targets
    case Conjunction(targets, incoming) => n.Conjunction? && n.targets == targets && n.incoming.keys == incoming.keys
    case Broadcaster(targets) => n == m
  }

  /** `Rule.pulse` for the module called `name`, receiving a pulse from
      `source`: a flip-flop ignores a high pulse and toggles on a low one,
      sending its new state; a conjunction asserts it knows the input,
      records the level, and sends low exactly when every remembered level
      is high; the broadcaster forwards the level. */
  function Receive(m: Module, name: string, source: string, high: bool): (r: Result<(Module, seq<Pulse>)>)
    ensures r.Err? <==> m.Conjunction? && source !in m.incoming.entries
    ensures r.Err? ==> r.error == AssertionError
    ensures r.Ok? ==> SameWiring(m, r.value.0)
    ensures r.Ok? && m.FlipFlop? ==>
      if high then r.value == (m, []) else r.value == (m.(on := !m.on), Send(name, m.targets, !m.on))
    ensures r.Ok? && m.Conjunction? ==>
      r.value.0.incoming.entries == m.incoming.entries[source := high]
      && r.value.1 == Send(name, m.targets, !AllHigh(r.value.0.incoming))
    ensures r.Ok? && m.Broadcaster? ==> r.value == (m, Send(name, m.targets, high))
  {
    match m
    case FlipFlop(targets, on) =>
      if high then Ok((m, [])) else Ok((FlipFlop(targets, !on), Send(name, targets, !on)))
    case Conjunction(targets, incoming) =>
      if source !in incoming.entries then Err(AssertionError)
      else
        var memory := incoming.Put(source, high);
        Ok((Conjunction(targets, memory), Send(name, targets, !AllHigh(memory))))
    case Broadcaster(targets) => Ok((m, Send(name, targets, high)))
  }

  /** The module after receiving each (source, level) of `history` in turn,
      its pulses sent discarded. */
  function Feed(m: Module, name: string, history: seq<(string, bool)>): Result<Module>
  {
    if |history| == 0 then Ok(m)
    else
      var before :- Feed(m, name, history[..|history| - 1]);
      var last := history[|history| - 1];
      var got :- Receive(before, name, last.0, last.1);
      Ok(got.0)
  }

  /** How many of the received pulses were low. */
  function Lows(history: seq<(string, bool)>): nat
  {
    if |history| == 0 then 0
    else Lows(history[..|history| - 1]) + if history[|history| - 1].1 then 0 else 1
  }

  /** A flip-flop is on exactly when it started on and has received an
      even number of low pulses, or started off and has received an odd
      number; high pulses leave it alone. */
  lemma {:induction false} FlipFlopParity(targets: seq<string>, on: bool, name: string, history: seq<(string, bool)>)
    ensures Feed(FlipFlop(targets, on), name, history) == Ok(FlipFlop(targets, on != (Lows(history) % 2 == 1)))
    decreases |history|
  {
    if |history| > 0 {
      FlipFlopParity(targets, on, name, history[..|history| - 1]);
    }
  }

  /** The level of the last pulse from `source` in the history, or `initial` when there is none. */
  function Latest(history: seq<(string, bool)>, source: string, initial: bool): bool
  {
    if |history| == 0 then initial
    else if history[|history| - 1].0 == source then history[|history| - 1].1
    else Latest(history[..|history| - 1], source, initial)
  }

  /** A conjunction that knows every sender of the history ends up
      remembering, for each input, the level of the last pulse from it, or
      what it remembered before when that input sent nothing. */
  lemma {:induction false} ConjunctionRemembers(targets: seq<string>, incoming: Dict<string, bool>, name: string,
                                                history: seq<(string, bool)>)
    requires forall i :: 0 <= i < |history| ==> history[i].0 in incoming.entries
    ensures Feed(Conjunction(targets, incoming), name, history).Ok?
    ensures var m := Feed(Conjunction(targets, incoming), name, history).value;
      m.Conjunction? && m.targets == targets && m.incoming.entries.Keys == incoming.entries.Keys
      && forall k :: k in incoming.entries ==> m.incoming.entries[k] == Latest(history, k, incoming.entries[k])
    decreases |history|
  {
    if |history| > 0 {
      ConjunctionRemembers(targets, incoming, name, history[..|history| - 1]);
    }
  }

  /** A conjunction whose inputs start low sends, on each pulse, low exactly
      when the latest pulse from every input was high. */
  lemma ConjunctionSends(targets: seq<string>, incoming: Dict<string, bool>, name: string,
                         history: seq<(string, bool)>, source: string, high: bool)
    requires forall k :: k in incoming.entries ==> !incoming.entries[k]
    requires forall i :: 0 <= i < |history| ==> history[i].0 in incoming.entries
    requires source in incoming.entries
    ensures Feed(Conjunction(targets, incoming), name, history).Ok?
    ensures var before := Feed(Conjunction(targets, incoming), name, history).value;
      var got := Receive(before, name, source, high);
      got.Ok? && got.value.1 ==
        Send(name, targets, !forall k :: k in incoming.entries ==> Latest(history + [(source, high)], k, false))
  {
    var after := history + [(source, high)];
    assert after[..|after| - 1] == history;
    ConjunctionRemembers(targets, incoming, name, history);
    ConjunctionRemembers(targets, incoming, name, after);
    var before := Feed(Conjunction(targets, incoming), name, history).value;
    var got := Receive(before, name, source, high);
    assert Feed(Conjunction(targets, incoming), name, after) == Ok(got.value.0);
  }

  /** `make_rule`: `%` makes a flip-flop, off; `&` a conjunction with no
      inputs yet; any other prefix must come with the name `broadcaster`. */
  function MakeModule(spec: Spec): (r: Result<Module>)
    ensures r.Ok? <==> spec.prefix == "%" || spec.prefix == "&" || spec.source == "broadcaster"
    ensures r.Err? ==> r.error == AssertionError
    ensures r.Ok? ==> r.value.targets == spec.targets
    ensures r.Ok? ==> (r.value.FlipFlop? <==> spec.prefix == "%") && (r.value.FlipFlop? ==> !r.value.on)
    ensures r.Ok? ==> ((r.value.Conjunction? <==> spec.prefix == "&")
                       && (r.value.Conjunction? ==> r.value.incoming == Empty()))
  {
    if spec.prefix == "%" then Ok(FlipFlop(spec.targets, false))
    else if spec.prefix == "&" then Ok(Conjunction(spec.targets, Empty()))
    else if spec.source == "broadcaster" then Ok(Broadcaster(spec.targets))
    else Err(AssertionError)
  }

  /** The module names of the configuration, in order. */
  function Sources(specs: seq<Spec>): (r: seq<string>)
    ensures |r| == |specs| && forall i :: 0 <= i < |specs| ==> r[i] == specs[i].source
  {
    seq(|specs|, i requires 0 <= i < |specs| => specs[i].source)
  }

  /** No module name appears twice. */
  predicate Distinct(names: seq<string>)
  {
    forall i, j :: 0 <= i < j < |names| ==> names[i] != names[j]
  }

  /** The first loop of `Document.__init__`: each line in turn asserts
      its name is new and makes its module. */
  function Build(specs: seq<Spec>): (r: Result<Network>)
    ensures r.Ok? <==> Distinct(Sources(specs)) && forall i :: 0 <= i < |specs| ==> MakeModule(specs[i]).Ok?
    ensures r.Err? ==> r.error == AssertionError
    ensures r.Ok? ==> (r.value.Valid() && r.value.keys == Sources(specs)
                       && forall i :: 0 <= i < |specs| ==> r.value.entries[specs[i].source] == MakeModule(specs[i]).value)
  {
    if |specs| == 0 then Ok(Empty())
    else
      var init := specs[..|specs| - 1];
      var spec := specs[|specs| - 1];
      assert Sources(specs) == Sources(init) + [spec.source];
      var net :- Build(init);
      if spec.source in net.entries then Err(AssertionError)
      else
        var m :- MakeModule(spec);
        Ok(net.Put(spec.source, m))
  }

  /** Each conjunction's memory is a well-formed dictionary. */
  predicate MemoriesValid(net: Network)
  {
    forall c :: c in net.entries && net.entries[c].Conjunction? ==> net.entries[c].incoming.Valid()
  }

  /** Same names in the same order, and every module of the same kind with
      the same targets; flip-flops and the broadcaster are untouched. */
  predicate Rewired(before: Network, after: Network)
  {
    after.keys == before.keys && after.entries.Keys == before.entries.Keys
    && forall n :: n in before.entries ==>
         if before.entries[n].Conjunction?
         then after.entries[n].Conjunction? && after.entries[n].targets == before.entries[n].targets
         else after.entries[n] == before.entries[n]
  }

  /** `notify_incoming` on the module called `target`: a conjunction
      learns the input `source`, remembered low; other modules ignore it. */
  function NotifyOne(net: Network, source: string, target: string): Network
  {
    if target in net.entries && net.entries[target].Conjunction? then
      var c := net.entries[target];
      net.Put(target, c.(incoming := c.incoming.Put(source, false)))
    else net
  }

  /** The inner loop of the wiring: every target of `source` that names a module is notified. */
  function NotifyTargets(net: Network, source: string, targets: seq<string>): Network
  {
    if |targets| == 0 then net
    else NotifyOne(NotifyTargets(net, source, targets[..|targets| - 1]), source, targets[|targets| - 1])
  }

  /** Between the two networks, the conjunction `c` learned exactly the inputs `added`, each remembered low. */
  ghost predicate Learns(before: Network, after: Network, c: string, added: set<string>)
    requires c in before.entries && c in after.entries
    requires before.entries[c].Conjunction? && after.entries[c].Conjunction?
  {
    var old_memory := before.entries[c].incoming.entries;
    var new_memory := after.entries[c].incoming.entries;
    (forall src :: src in new_memory <==> src in old_memory || src in added)
    && forall src :: src in new_memory ==> new_memory[src] == if src in added then false else old_memory[src]
  }

  lemma LearnsInSteps(a: Network, b: Network, d: Network, c: string, x: set<string>, y: set<string>)
    requires c in a.entries && c in b.entries && c in d.entries
    requires a.entries[c].Conjunction? && b.entries[c].Conjunction? && d.entries[c].Conjunction?
    requires Learns(a, b, c, x) && Learns(b, d, c, y)
    ensures Learns(a, d, c, x + y)
  {
  }

  lemma RewiredInSteps(a: Network, b: Network, d: Network)
    requires Rewired(a, b) && Rewired(b, d)
    ensures Rewired(a, d)
  {
  }

  lemma NotifyOneShape(net: Network, source: string, target: string)
    requires net.Valid() && MemoriesValid(net)
    ensures var r := NotifyOne(net, source, target);
      r.Valid() && MemoriesValid(r) && Rewired(net, r)
  {
  }

  lemma NotifyOneLearns(net: Network, source: string, target: string, c: string)
    requires c in net.entries && net.entries[c].Conjunction?
    ensures c in NotifyOne(net, source, target).entries && NotifyOne(net, source, target).entries[c].Conjunction?
    ensures Learns(net, NotifyOne(net, source, target), c, if c == target then {source} else {})
  {
  }

  lemma {:induction false} NotifyTargetsShape(net: Network, source: string, targets: seq<string>)
    requires net.Valid() && MemoriesValid(net)
    ensures var r := NotifyTargets(net, source, targets);
      r.Valid() && MemoriesValid(r) && Rewired(net, r)
    decreases |targets|
  {
    if |targets| > 0 {
      var init := targets[..|targets| - 1];
      NotifyTargetsShape(net, source, init);
      var before := NotifyTargets(net, source, init);
      NotifyOneShape(before, source, targets[|targets| - 1]);
      RewiredInSteps(net, before, NotifyTargets(net, source, targets));
    }
  }

  lemma {:induction false} NotifyTargetsLearns(net: Network, source: string, targets: seq<string>, c: string)
    requires c in net.entries && net.entries[c].Conjunction?
    ensures c in NotifyTargets(net, source, targets).entries && NotifyTargets(net, source, targets).entries[c].Conjunction?
    ensures Learns(net, NotifyTargets(net, source, targets), c, if c in targets then {source} else {})
    decreases |targets|
  {
    if |targets| > 0 {
      var init := targets[..|targets| - 1];
      var last := targets[|targets| - 1];
      NotifyTargetsLearns(net, source, init, c);
      var before := NotifyTargets(net, source, init);
      NotifyOneLearns(before, source, last, c);
      var x: set<string> := if c in init then {source} else {};
      var y: set<string> := if c == last then {source} else {};
      assert c in targets <==> c in init || c == last;
      assert x + y == if c in targets then {source} else {};
      LearnsInSteps(net, before, NotifyOne(before, source, last), c, x, y);
    }
  }

  /** `source` is one of `names` and lists the module `c` among its targets. */
  predicate Feeds(net: Network, names: seq<string>, source: string, c: string)
  {
    source in names && source in net.entries && c in net.entries[source].targets
  }

  /** The modules of `names` that target `c`. */
  ghost function Feeders(net: Network, names: seq<string>, c: string): set<string>
  {
    set source | source in names && Feeds(net, names, source, c)
  }

  /** The second loop of `Document.__init__`: each module, in order,
      notifies its targets. */
  function Connect(net: Network, names: seq<string>): Network
  {
    if |names| == 0 then net
    else
      var before := Connect(net, names[..|names| - 1]);
      var name := names[|names| - 1];
      if name in before.entries then NotifyTargets(before, name, before.entries[name].targets) else before
  }

  lemma {:induction false} ConnectShape(net: Network, names: seq<string>)
    requires net.Valid() && MemoriesValid(net)
    ensures var r := Connect(net, names);
      r.Valid() && MemoriesValid(r) && Rewired(net, r)
    decreases |names|
  {
    if |names| > 0 {
      var init := names[..|names| - 1];
      var name := names[|names| - 1];
      ConnectShape(net, init);
      var before := Connect(net, init);
      if name in before.entries {
        NotifyTargetsShape(before, name, before.entries[name].targets);
        RewiredInSteps(net, before, Connect(net, names));
      }
    }
  }

  /** After the wiring, each conjunction also remembers, low, every module
      of `names` that targets it. */
  /** Same module names, each with the same kind and targets. */
  predicate SameTargets(a: Network, b: Network)
  {
    a.entries.Keys == b.entries.Keys
    && forall n :: n in a.entries ==>
         b.entries[n].targets == a.entries[n].targets && b.entries[n].Conjunction? == a.entries[n].Conjunction?
  }

  lemma {:induction false} NotifyTargetsKeeps(net: Network, source: string, targets: seq<string>)
    ensures SameTargets(net, NotifyTargets(net, source, targets))
    decreases |targets|
  {
    if |targets| > 0 {
      NotifyTargetsKeeps(net, source, targets[..|targets| - 1]);
    }
  }

  lemma {:induction false} ConnectKeeps(net: Network, names: seq<string>)
    ensures SameTargets(net, Connect(net, names))
    decreases |names|
  {
    if |names| > 0 {
      ConnectKeeps(net, names[..|names| - 1]);
      var before := Connect(net, names[..|names| - 1]);
      var name := names[|names| - 1];
      if name in before.entries {
        NotifyTargetsKeeps(before, name, before.entries[name].targets);
      }
    }
  }

  /** After the wiring, each conjunction also remembers, low, every module
      of `names` that targets it. */
  lemma {:induction false} ConnectLearns(net: Network, names: seq<string>, c: string)
    requires c in net.entries && net.entries[c].Conjunction?
    ensures c in Connect(net, names).entries && Connect(net, names).entries[c].Conjunction?
    ensures Learns(net, Connect(net, names), c, Feeders(net, names, c))
    decreases |names|
  {
    ConnectKeeps(net, names);
    if |names| > 0 {
      var init := names[..|names| - 1];
      var name := names[|names| - 1];
      ConnectLearns(net, init, c);
      ConnectKeeps(net, init);
      var before := Connect(net, init);
      var after := Connect(net, names);
      var step: set<string> := if name in net.entries && c in net.entries[name].targets then {name} else {};
      assert Feeders(net, names, c) == Feeders(net, init, c) + step;
      if name in before.entries {
        NotifyTargetsLearns(before, name, before.entries[name].targets, c);
        LearnsInSteps(net, before, after, c, Feeders(net, init, c), step);
      } else {
        assert Feeders(net, init, c) + step == Feeders(net, init, c);
      }
    }
  }

  /** Every conjunction remembers exactly the modules that target it. */
  ghost predicate Wired(net: Network)
  {
    forall c :: c in net.entries && net.entries[c].Conjunction? ==>
      forall src :: src in net.entries[c].incoming.entries <==> src in net.entries && c in net.entries[src].targets
  }

  /** Every level a conjunction remembers is low. */
  predicate AllLow(net: Network)
  {
    forall c :: c in net.entries && net.entries[c].Conjunction? ==>
      forall src :: src in net.entries[c].incoming.entries ==> !net.entries[c].incoming.entries[src]
  }

  /** `Document.__init__`: build the modules, assert the broadcaster is
      among them, then wire every conjunction to its inputs. */
  function Load(specs: seq<Spec>): (r: Result<Network>)
    ensures r.Ok? <==> Build(specs).Ok? && "broadcaster" in Sources(specs)
    ensures r.Err? ==> r.error == AssertionError
    ensures r.Ok? ==> (r.value.Valid() && MemoriesValid(r.value) && r.value.keys == Sources(specs)
                       && "broadcaster" in r.value.entries)
  {
    var net :- Build(specs);
    if "broadcaster" !in net.entries then Err(AssertionError)
    else
      ConnectShape(net, net.keys);
      Ok(Connect(net, net.keys))
  }

  /** A loaded network has one module per line, of the line's kind and
      with its targets, flip-flops off. */
  lemma LoadModules(specs: seq<Spec>)
    requires Load(specs).Ok?
    ensures var net := Load(specs).value;
      forall i :: 0 <= i < |specs| ==>
        var m := net.entries[specs[i].source];
        m.targets == specs[i].targets
        && (m.FlipFlop? <==> specs[i].prefix == "%") && (m.FlipFlop? ==> !m.on)
        && (m.Conjunction? <==> specs[i].prefix == "&")
  {
    var built := Build(specs).value;
    ConnectKeeps(built, built.keys);
    ConnectShape(built, built.keys);
  }

  /** Before the wiring, every conjunction remembers nothing. */
  lemma BuiltEmpty(specs: seq<Spec>, c: string)
    requires Build(specs).Ok? && c in Build(specs).value.entries && Build(specs).value.entries[c].Conjunction?
    ensures Build(specs).value.entries[c].incoming == Empty()
  {
    var built := Build(specs).value;
    assert c in built.keys;
    var i :| 0 <= i < |specs| && specs[i].source == c;
  }

  lemma LoadWiredAt(specs: seq<Spec>, c: string)
    requires Load(specs).Ok? && c in Load(specs).value.entries && Load(specs).value.entries[c].Conjunction?
    ensures var memory := Load(specs).value.entries[c].incoming.entries;
      (forall src :: src in memory <==> src in Load(specs).value.entries && c in Load(specs).value.entries[src].targets)
      && forall src :: src in memory ==> !memory[src]
  {
    var built := Build(specs).value;
    ConnectKeeps(built, built.keys);
    BuiltEmpty(specs, c);
    ConnectLearns(built, built.keys, c);
  }

  /** In a loaded network each conjunction remembers exactly the modules
      that target it, all low. */
  lemma LoadWired(specs: seq<Spec>)
    requires Load(specs).Ok?
    ensures Wired(Load(specs).value) && AllLow(Load(specs).value)
  {
    var net := Load(specs).value;
    forall c | c in net.entries && net.entries[c].Conjunction?
      ensures forall src :: src in net.entries[c].incoming.entries <==> src in net.entries && c in net.entries[src].targets
      ensures forall src :: src in net.entries[c].incoming.entries ==> !net.entries[c].incoming.entries[src]
    {
      LoadWiredAt(specs, c);
    }
  }

  /** The pulse every button press starts with: low, to the broadcaster. */
  const ButtonPulse: Pulse := Pulse("button", "broadcaster", false)

  /** One turn of `_pulse`'s loop after counting: a pulse to a name with no
      module goes nowhere; otherwise that module handles it and the pulses
      it sends are returned, to be queued in order. */
  function Deliver(net: Network, p: Pulse): (r: Result<(Network, seq<Pulse>)>)
    ensures r.Err? <==> (p.target in net.entries && net.entries[p.target].Conjunction?
                         && p.source !in net.entries[p.target].incoming.entries)
    ensures r.Err? ==> r.error == AssertionError
    ensures p.target !in net.entries ==> r == Ok((net, []))
    ensures r.Ok? && p.target in net.entries ==>
      forall i :: 0 <= i < |r.value.1| ==>
        r.value.1[i].source == p.target && r.value.1[i].target in net.entries[p.target].targets
  {
    if p.target !in net.entries then Ok((net, []))
    else
      var got :- Receive(net.entries[p.target], p.target, p.source, p.high);
      Ok((net.Put(p.target, got.0), got.1))
  }

  /** The network after a press, with the low and high pulses it counted. */
  datatype Tally = Tally(net: Network, lows: nat, highs: nat)

  /** The number of pulses of level `high` in `ps`. */
  function CountLevel(ps: seq<Pulse>, high: bool): nat
  {
    if |ps| == 0 then 0 else (if ps[0].high == high then 1 else 0) + CountLevel(ps[1..], high)
  }

  lemma {:induction false} CountLevelAppend(a: seq<Pulse>, b: seq<Pulse>, high: bool)
    ensures CountLevel(a + b, high) == CountLevel(a, high) + CountLevel(b, high)
    decreases |a|
  {
    if |a| == 0 {
      assert a + b == b;
    } else {
      assert (a + b)[1..] == a[1..] + b;
      CountLevelAppend(a[1..], b, high);
    }
  }

  /** The pulses the loop of `_pulse` takes from its queue, in the order it
      takes them: the queue's head, then those of the queue that follows
      once the receiver's pulses are queued behind the rest. */
  function Handled(net: Network, queue: seq<Pulse>, fuel: nat): seq<Pulse>
    decreases fuel
  {
    if |queue| == 0 || fuel == 0 then []
    else
      match Deliver(net, queue[0])
      case Err(_) => [queue[0]]
      case Ok(step) => [queue[0]] + Handled(step.0, queue[1..] + step.1, fuel - 1)
  }

  /** The loop of `_pulse` (20.py) under a bound on the pulses handled: take
      the first pulse of the queue, count it by level, deliver it, and queue
      what the receiver sends at the back. Every queued pulse is counted; the
      exact counts are `DrainCounts`. */
  function Drain(net: Network, queue: seq<Pulse>, fuel: nat): (r: Run<Tally>)
    ensures r.Ended? && r.outcome.Err? ==> r.outcome.error == AssertionError
    ensures r.Ended? && r.outcome.Ok? ==> r.outcome.value.lows + r.outcome.value.highs >= |queue|
    ensures r.Ended? && r.outcome.Ok? && |queue| > 0 && !queue[0].high ==> r.outcome.value.lows >= 1
    decreases fuel
  {
    if |queue| == 0 then Ended(Ok(Tally(net, 0, 0)))
    else if fuel == 0 then Unfinished
    else
      var p := queue[0];
      match Deliver(net, p)
      case Err(e) => Ended(Err(e))
      case Ok(step) =>
        match Drain(step.0, queue[1..] + step.1, fuel - 1)
        case Ended(Ok(t)) =>
          Ended(Ok(if p.high then t.(highs := t.highs + 1) else t.(lows := t.lows + 1)))
        case other => other
  }

  /** A drain that ends counts exactly the low and the high pulses it
      handles, and handles every pulse queued at the start first, in queue
      order. */
  lemma {:induction false} DrainCounts(net: Network, queue: seq<Pulse>, fuel: nat)
    requires Drain(net, queue, fuel).Ended? && Drain(net, queue, fuel).outcome.Ok?
    ensures Drain(net, queue, fuel).outcome.value.lows == CountLevel(Handled(net, queue, fuel), false)
    ensures Drain(net, queue, fuel).outcome.value.highs == CountLevel(Handled(net, queue, fuel), true)
    ensures queue <= Handled(net, queue, fuel)
    decreases fuel
  {
    if |queue| > 0 {
      var step := Deliver(net, queue[0]).value;
      var rest := queue[1..] + step.1;
      var later := Handled(step.0, rest, fuel - 1);
      DrainCounts(step.0, rest, fuel - 1);
      assert Handled(net, queue, fuel) == [queue[0]] + later;
      assert queue[1..] == later[..|queue| - 1] by {
        assert rest == later[..|rest|];
      }
      assert queue == ([queue[0]] + later)[..|queue|];
    }
  }

  /** `_pulse` without its cache: one press of the button. The exact counts
      are `PressCounts`. */
  function Press(net: Network, fuel: nat): (r: Run<Tally>)
    ensures r.Ended? && r.outcome.Err? ==> r.outcome.error == AssertionError
    ensures r.Ended? && r.outcome.Ok? ==> r.outcome.value.lows >= 1
  {
    Drain(net, [ButtonPulse], fuel)
  }

  /** A press that ends counts the low and the high pulses it handles, the
      button's low pulse to the broadcaster first among them. */
  lemma PressCounts(net: Network, fuel: nat)
    requires Press(net, fuel).Ended? && Press(net, fuel).outcome.Ok?
    ensures Press(net, fuel).outcome.value.lows == CountLevel(Handled(net, [ButtonPulse], fuel), false)
    ensures Press(net, fuel).outcome.value.highs == CountLevel(Handled(net, [ButtonPulse], fuel), true)
    ensures |Handled(net, [ButtonPulse], fuel)| > 0 && Handled(net, [ButtonPulse], fuel)[0] == ButtonPulse
  {
    DrainCounts(net, [ButtonPulse], fuel);
  }

  /** The pulse comes from a module that lists its receiver as a target. */
  predicate Sent(net: Network, p: Pulse)
  {
    p.source in net.entries && p.target in net.entries[p.source].targets
  }

  /** A conjunction receiving the pulse knows its sender. */
  predicate Known(net: Network, p: Pulse)
  {
    p.target in net.entries && net.entries[p.target].Conjunction? ==> p.source in net.entries[p.target].incoming.entries
  }

  /** Handling a pulse changes no module's kind, targets or, for a
      conjunction, set of inputs. */
  lemma DeliverKeeps(net: Network, p: Pulse)
    requires Deliver(net, p).Ok?
    ensures SameTargets(net, Deliver(net, p).value.0)
    ensures Wired(net) ==> Wired(Deliver(net, p).value.0)
  {
    var after := Deliver(net, p).value.0;
    if p.target in net.entries {
      assert forall c :: c in net.entries && net.entries[c].Conjunction? ==>
        after.entries[c].incoming.entries.Keys == net.entries[c].incoming.entries.Keys;
    }
  }

  /** In a wired network, pulses sent along the wiring never trip a
      conjunction's assertion, and the loop keeps the network wired. */
  lemma {:induction false} DrainSafe(net: Network, queue: seq<Pulse>, fuel: nat)
    requires Wired(net) && forall i :: 0 <= i < |queue| ==> Sent(net, queue[i])
    ensures !(Drain(net, queue, fuel).Ended? && Drain(net, queue, fuel).outcome.Err?)
    ensures Drain(net, queue, fuel).Ended? ==>
      Wired(Drain(net, queue, fuel).outcome.value.net) && SameTargets(net, Drain(net, queue, fuel).outcome.value.net)
    decreases fuel
  {
    if |queue| > 0 && fuel > 0 {
      var p := queue[0];
      assert Sent(net, p);
      assert Known(net, p);
      var step := Deliver(net, p).value;
      DeliverKeeps(net, p);
      var rest := queue[1..] + step.1;
      forall i | 0 <= i < |rest|
        ensures Sent(step.0, rest[i])
      {
        if i < |queue| - 1 {
          assert rest[i] == queue[i + 1];
        } else {
          assert rest[i] == step.1[i - (|queue| - 1)];
        }
      }
      DrainSafe(step.0, rest, fuel - 1);
    }
  }

  /** A press of the button never trips a conjunction's assertion in a
      wired network whose broadcaster, if a conjunction, knows `button`;
      the network stays wired. */
  lemma PressSafe(net: Network, fuel: nat)
    requires Wired(net) && Known(net, ButtonPulse)
    ensures !(Press(net, fuel).Ended? && Press(net, fuel).outcome.Err?)
    ensures Press(net, fuel).Ended? ==>
      Wired(Press(net, fuel).outcome.value.net) && SameTargets(net, Press(net, fuel).outcome.value.net)
  {
    if fuel > 0 {
      var step := Deliver(net, ButtonPulse).value;
      DeliverKeeps(net, ButtonPulse);
      var rest := [ButtonPulse][1..] + step.1;
      assert rest == step.1;
      DrainSafe(step.0, rest, fuel - 1);
    }
  }

  /** Adds the counts of two stretches of presses, the network being the later one's. */
  function Combine(first: Tally, second: Tally): Tally
  {
    Tally(second.net, first.lows + second.lows, first.highs + second.highs)
  }

  /** The totals `after` are those of `before` plus the low and the high
      pulses of `handled`. */
  predicate Counted(before: Tally, handled: seq<Pulse>, after: Tally)
  {
    after.lows == before.lows + CountLevel(handled, false) && after.highs == before.highs + CountLevel(handled, true)
  }

  /** The pulses handled over `count` presses from `net`, press after
      press, each press starting on the network the one before left. */
  function PressesHandled(net: Network, count: int, fuel: nat): seq<Pulse>
    decreases if count < 0 then 0 else count
  {
    if count <= 0 then []
    else
      match Press(net, fuel)
      case Ended(Ok(next)) => Handled(net, [ButtonPulse], fuel) + PressesHandled(next.net, count - 1, fuel)
      case _ => []
  }

  /** The loop of `pulses`: `count` more presses in turn (none when
      `count` is not positive, as `range` gives), adding their pulses to
      the running totals `so_far`: at least one low pulse per press; the
      exact totals are `PressesCounts`. */
  function Presses(so_far: Tally, count: int, fuel: nat): (r: Run<Tally>)
    ensures r.Ended? && r.outcome.Err? ==> r.outcome.error == AssertionError
    ensures r.Ended? && r.outcome.Ok? ==> r.outcome.value.lows >= so_far.lows + if count < 0 then 0 else count
    ensures r.Ended? && r.outcome.Ok? ==> r.outcome.value.highs >= so_far.highs
    decreases if count < 0 then 0 else count
  {
    if count <= 0 then Ended(Ok(so_far))
    else
      match Press(so_far.net, fuel)
      case Ended(Ok(next)) => Presses(Combine(so_far, next), count - 1, fuel)
      case other => other
  }

  /** The totals grow by exactly the low and high pulses the presses
      handle, press after press. */
  lemma {:induction false} PressesCounts(so_far: Tally, count: int, fuel: nat)
    requires Presses(so_far, count, fuel).Ended? && Presses(so_far, count, fuel).outcome.Ok?
    ensures Counted(so_far, PressesHandled(so_far.net, count, fuel), Presses(so_far, count, fuel).outcome.value)
    decreases if count < 0 then 0 else count
  {
    if count > 0 {
      var next := Press(so_far.net, fuel).outcome.value;
      var here := Handled(so_far.net, [ButtonPulse], fuel);
      var later := PressesHandled(next.net, count - 1, fuel);
      PressCounts(so_far.net, fuel);
      PressesCounts(Combine(so_far, next), count - 1, fuel);
      CountLevelAppend(here, later, false);
      CountLevelAppend(here, later, true);
    }
  }

  /** `pulses`: the product of the total low and high pulses over `count`
      presses, from no pulses counted (20.py:135-145). */
  function Score(net: Network, count: int, fuel: nat): (r: Run<int>)
    ensures r.Ended? && r.outcome.Err? ==> r.outcome.error == AssertionError
    ensures r.Ended? && r.outcome.Ok? ==>
      r.outcome.value == CountLevel(PressesHandled(net, count, fuel), false) * CountLevel(PressesHandled(net, count, fuel), true)
    ensures r.Ended? && r.outcome.Ok? ==> r.outcome.value >= 0
    ensures r.Unfinished? <==> Presses(Tally(net, 0, 0), count, fuel).Unfinished?
  {
    var run := Presses(Tally(net, 0, 0), count, fuel);
    if run.Unfinished? then Unfinished
    else if run.outcome.Err? then Ended(Err(run.outcome.error))
    else
      var t := run.outcome.value;
      PressesCounts(Tally(net, 0, 0), count, fuel);
      CountedProduct(net, PressesHandled(net, count, fuel), t);
      Ended(Ok(t.lows * t.highs))
  }

  /** Totals counted from none multiply to the product of the counts. */
  lemma CountedProduct(net: Network, handled: seq<Pulse>, t: Tally)
    requires Counted(Tally(net, 0, 0), handled, t)
    ensures t.lows * t.highs == CountLevel(handled, false) * CountLevel(handled, true)
    ensures t.lows * t.highs >= 0
  {
  }

  /** Pressing `m` then `n` times is pressing `m + n` times. */
  lemma {:induction false} PressesSplit(so_far: Tally, m: nat, n: nat, fuel: nat)
    ensures Presses(so_far, m + n, fuel) ==
      match Presses(so_far, m, fuel)
      case Ended(Ok(t)) => Presses(t, n, fuel)
      case other => other
    decreases m
  {
    if m > 0 {
      var step := Press(so_far.net, fuel);
      if step.Ended? && step.outcome.Ok? {
        PressesSplit(Combine(so_far, step.outcome.value), m - 1, n, fuel);
      }
    }
  }

  /** Presses on a wired network whose broadcaster, if a conjunction,
      knows `button` never raise, and keep it so. */
  lemma {:induction false} PressesSafe(so_far: Tally, count: int, fuel: nat)
    requires Wired(so_far.net) && Known(so_far.net, ButtonPulse)
    ensures !(Presses(so_far, count, fuel).Ended? && Presses(so_far, count, fuel).outcome.Err?)
    ensures Presses(so_far, count, fuel).Ended? ==>
      var after := Presses(so_far, count, fuel).outcome.value.net;
      Wired(after) && SameTargets(so_far.net, after) && Known(after, ButtonPulse)
    decreases if count < 0 then 0 else count
  {
    if count > 0 {
      PressSafe(so_far.net, fuel);
      var step := Press(so_far.net, fuel);
      if step.Ended? {
        PressesSafe(Combine(so_far, step.outcome.value), count - 1, fuel);
      }
    }
  }

  /** On a loaded network whose broadcaster is not a conjunction, `pulses`
      never raises. */
  lemma LoadedScoreSafe(specs: seq<Spec>, count: int, fuel: nat)
    requires Load(specs).Ok? && !Load(specs).value.entries["broadcaster"].Conjunction?
    ensures !(Score(Load(specs).value, count, fuel).Ended? && Score(Load(specs).value, count, fuel).outcome.Err?)
  {
    LoadWired(specs);
    PressesSafe(Tally(Load(specs).value, 0, 0), count, fuel);
  }

  // Saved state: `state` and `load_state`.

  /** What `state()` gives for one module: a flip-flop's switch, a
      conjunction's remembered levels, and `None` for the broadcaster. */
  datatype State = OnOff(on: bool) | Levels(levels: seq<bool>) | Stateless

  /** A sequence with no repeats stays so under any rearrangement. */
  lemma {:induction false} DistinctPermutation(a: seq<string>, b: seq<string>)
    requires multiset(a) == multiset(b) && Distinct(b)
    ensures Distinct(a)
  {
    forall i, j | 0 <= i < j < |a|
      ensures a[i] != a[j]
    {
      if a[i] == a[j] {
        var x := a[i];
        assert a == a[..i] + [x] + a[i + 1..j] + [x] + a[j + 1..];
        assert multiset(a)[x] >= 2;
        AtMostOnce(b, x);
      }
    }
  }

  lemma {:induction false} AtMostOnce(b: seq<string>, x: string)
    requires Distinct(b)
    ensures multiset(b)[x] <= 1
    decreases |b|
  {
    if |b| > 0 {
      var init := b[..|b| - 1];
      assert b == init + [b[|b| - 1]];
      assert Distinct(init);
      AtMostOnce(init, x);
      if x == b[|b| - 1] {
        assert x !in init;
      }
    }
  }

  /** The names in sorted order, as both `Conjunction.state` and
      `Document.state_order` take them. */
  function SortedKeys<V>(d: Dict<string, V>): (r: seq<string>)
    requires d.Valid()
    ensures Sorted(r, CompareNames) && Distinct(r)
    ensures forall k :: k in r <==> k in d.entries
  {
    var r := SortNames(d.keys);
    assert forall k :: k in r <==> k in multiset(d.keys);
    DistinctPermutation(r, d.keys);
    r
  }

  /** `Rule.state` of each kind. */
  function StateOf(m: Module): State
    requires m.Conjunction? ==> m.incoming.Valid()
  {
    match m
    case FlipFlop(_, on) => OnOff(on)
    case Conjunction(_, incoming) => Levels(incoming.ValuesOf(SortedKeys(incoming)))
    case Broadcaster(_) => Stateless
  }

  /** `Document.state`: one entry per module, the modules in sorted name order. */
  function Snapshot(net: Network): (r: seq<State>)
    requires net.Valid() && MemoriesValid(net)
    ensures |r| == |net.keys|
    ensures forall i :: 0 <= i < |r| ==> r[i] == StateOf(net.entries[SortedKeys(net)[i]])
  {
    var order := SortedKeys(net);
    seq(|order|, i requires 0 <= i < |order| => StateOf(net.entries[order[i]]))
  }

  /** How many pairs `zip` makes of two sequences: as many as the shorter has. */
  function Zipped<A, B>(a: seq<A>, b: seq<B>): nat
  {
    if |a| < |b| then |a| else |b|
  }

  /** The loop of `Conjunction.load_state`: each name `zip` pairs with a
      level has its memory overwritten with that level. */
  function Assign(memory: Dict<string, bool>, names: seq<string>, levels: seq<bool>): (r: Dict<string, bool>)
    requires forall k :: k in names ==> k in memory.entries
    ensures r.keys == memory.keys && r.entries.Keys == memory.entries.Keys
    ensures forall k :: k in memory.entries && k !in names[..Zipped(names, levels)] ==> r.entries[k] == memory.entries[k]
    ensures Distinct(names) ==> forall i :: 0 <= i < Zipped(names, levels) ==> r.entries[names[i]] == levels[i]
    decreases |names|
  {
    if |names| == 0 || |levels| == 0 then memory
    else
      var r := Assign(memory.Put(names[0], levels[0]), names[1..], levels[1..]);
      assert names[..Zipped(names, levels)] == [names[0]] + names[1..][..Zipped(names[1..], levels[1..])];
      r
  }

  /** `Rule.load_state` of each kind. A conjunction `zip`s its sorted
      inputs with the state, which raises `TypeError` unless the state is
      a sequence; the broadcaster ignores the state. A flip-flop would
      store whatever it is given, which this model types as `TypeError`
      too unless the state is a switch. */
  function LoadState(m: Module, s: State): (r: Result<Module>)
    requires m.Conjunction? ==> m.incoming.Valid()
    ensures r.Ok? <==> m.Broadcaster? || (m.FlipFlop? && s.OnOff?) || (m.Conjunction? && s.Levels?)
    ensures r.Err? ==> r.error == TypeError
    ensures r.Ok? ==> SameWiring(m, r.value) && (r.value.Conjunction? ==> r.value.incoming.Valid())
    ensures r.Ok? && m.FlipFlop? ==> r.value.on == s.on
  {
    match m
    case FlipFlop(targets, _) => if s.OnOff? then Ok(FlipFlop(targets, s.on)) else Err(TypeError)
    case Conjunction(targets, incoming) =>
      if s.Levels? then Ok(Conjunction(targets, Assign(incoming, SortedKeys(incoming), s.levels))) else Err(TypeError)
    case Broadcaster(_) => Ok(m)
  }

  /** The loop of `Document.load_state`: each name `zip` pairs with a
      state loads it into that module; the rest stay as they are. */
  function RestoreFrom(net: Network, order: seq<string>, states: seq<State>): (r: Result<Network>)
    requires MemoriesValid(net) && forall k :: k in order ==> k in net.entries
    ensures r.Err? ==> r.error == TypeError
    ensures r.Ok? ==> r.value.keys == net.keys && r.value.entries.Keys == net.entries.Keys && MemoriesValid(r.value)
    decreases |order|
  {
    if |order| == 0 || |states| == 0 then Ok(net)
    else
      var m :- LoadState(net.entries[order[0]], states[0]);
      RestoreFrom(net.Put(order[0], m), order[1..], states[1..])
  }

  /** `Document.load_state` raises exactly when loading one of the paired
      states into its module raises. */
  lemma {:induction false} RestoreFromFails(net: Network, order: seq<string>, states: seq<State>)
    requires MemoriesValid(net) && forall k :: k in order ==> k in net.entries
    ensures RestoreFrom(net, order, states).Err? <==>
      exists i :: 0 <= i < Zipped(order, states) && LoadState(net.entries[order[i]], states[i]).Err?
    decreases |order|
  {
    if |order| > 0 && |states| > 0 {
      var first := LoadState(net.entries[order[0]], states[0]);
      if first.Ok? {
        var after := net.Put(order[0], first.value);
        RestoreFromFails(after, order[1..], states[1..]);
        if exists i :: 0 <= i < Zipped(order, states) && LoadState(net.entries[order[i]], states[i]).Err? {
          var i :| 0 <= i < Zipped(order, states) && LoadState(net.entries[order[i]], states[i]).Err?;
          assert i > 0;
          if order[i] == order[0] {
            assert SameWiring(net.entries[order[0]], first.value);
          }
          assert LoadState(after.entries[order[1..][i - 1]], states[1..][i - 1]).Err?;
        }
      } else {
        assert LoadState(net.entries[order[0]], states[0]).Err?;
      }
    }
  }

  /** After `Document.load_state` each paired module holds what loading
      its state gave, and every other module is as it was. */
  lemma {:induction false} RestoreFromLoads(net: Network, order: seq<string>, states: seq<State>)
    requires MemoriesValid(net) && forall k :: k in order ==> k in net.entries
    requires Distinct(order) && RestoreFrom(net, order, states).Ok?
    ensures var after := RestoreFrom(net, order, states).value;
      forall i :: 0 <= i < Zipped(order, states) ==> LoadState(net.entries[order[i]], states[i]) == Ok(after.entries[order[i]])
    ensures var after := RestoreFrom(net, order, states).value;
      forall k :: k in net.entries && k !in order[..Zipped(order, states)] ==> after.entries[k] == net.entries[k]
    decreases |order|
  {
    if |order| > 0 && |states| > 0 {
      var m := LoadState(net.entries[order[0]], states[0]).value;
      var next := net.Put(order[0], m);
      RestoreFromLoads(next, order[1..], states[1..]);
      assert order[..Zipped(order, states)] == [order[0]] + order[1..][..Zipped(order[1..], states[1..])];
      var after := RestoreFrom(net, order, states).value;
      forall i | 0 <= i < Zipped(order, states)
        ensures LoadState(net.entries[order[i]], states[i]) == Ok(after.entries[order[i]])
      {
        if i > 0 {
          assert order[i] == order[1..][i - 1] && states[i] == states[1..][i - 1];
          assert order[i] != order[0];
        } else {
          assert order[0] !in order[1..];
        }
      }
    }
  }

  /** `Document.load_state`. */
  function Restore(net: Network, states: seq<State>): (r: Result<Network>)
    requires net.Valid() && MemoriesValid(net)
    ensures r.Ok? ==> r.value.keys == net.keys && r.value.Valid() && MemoriesValid(r.value)
  {
    RestoreFrom(net, SortedKeys(net), states)
  }

  /** Writing back what a memory already holds changes nothing. */
  lemma {:induction false} AssignSame(memory: Dict<string, bool>, names: seq<string>, levels: seq<bool>)
    requires forall k :: k in names ==> k in memory.entries
    requires forall i :: 0 <= i < Zipped(names, levels) ==> levels[i] == memory.entries[names[i]]
    ensures Assign(memory, names, levels) == memory
    decreases |names|
  {
    if |names| > 0 && |levels| > 0 {
      assert memory.Put(names[0], levels[0]) == memory;
      AssignSame(memory, names[1..], levels[1..]);
    }
  }

  /** `load_state(state())` on one module gives the module back. */
  lemma LoadOwnState(m: Module)
    requires m.Conjunction? ==> m.incoming.Valid()
    ensures LoadState(m, StateOf(m)) == Ok(m)
  {
    if m.Conjunction? {
      var order := SortedKeys(m.incoming);
      AssignSame(m.incoming, order, m.incoming.ValuesOf(order));
    }
  }

  /** Loading each module's own state, in any order, changes nothing. */
  lemma {:induction false} RestoreSame(net: Network, order: seq<string>, states: seq<State>)
    requires MemoriesValid(net) && forall k :: k in order ==> k in net.entries
    requires forall i :: 0 <= i < Zipped(order, states) ==> states[i] == StateOf(net.entries[order[i]])
    ensures RestoreFrom(net, order, states) == Ok(net)
    decreases |order|
  {
    if |order| > 0 && |states| > 0 {
      LoadOwnState(net.entries[order[0]]);
      assert net.Put(order[0], net.entries[order[0]]) == net;
      RestoreSame(net, order[1..], states[1..]);
    }
  }

  /** `load_state(state())` on the whole network changes no module. */
  lemma RestoreSnapshot(net: Network)
    requires net.Valid() && MemoriesValid(net)
    ensures Restore(net, Snapshot(net)) == Ok(net)
  {
    RestoreSame(net, SortedKeys(net), Snapshot(net));
  }

  /** A state of the shape `state()` gives for `m`. */
  predicate Fits(m: Module, s: State)
  {
    match m
    case FlipFlop(_, _) => s.OnOff?
    case Conjunction(_, incoming) => s.Levels? && |s.levels| == |incoming.keys|
    case Broadcaster(_) => s.Stateless?
  }

  /** `state()` after loading a state of the right shape gives that state back. */
  lemma LoadedState(m: Module, s: State)
    requires m.Conjunction? ==> m.incoming.Valid()
    requires Fits(m, s)
    ensures LoadState(m, s).Ok? && StateOf(LoadState(m, s).value) == s
  {
    if m.Conjunction? {
      LoadedLevels(m.incoming, s.levels);
    }
  }

  /** A conjunction's memory after loading as many levels as it has
      inputs reads back, in sorted input order, as those levels. */
  lemma LoadedLevels(memory: Dict<string, bool>, levels: seq<bool>)
    requires memory.Valid() && |levels| == |memory.keys|
    ensures var after := Assign(memory, SortedKeys(memory), levels);
      after.Valid() && after.ValuesOf(SortedKeys(after)) == levels
  {
    var order := SortedKeys(memory);
    assert |order| == |levels| by {
      assert multiset(order) == multiset(memory.keys);
    }
    AssignedLevels(memory, order, levels);
    var after := Assign(memory, order, levels);
    assert SortedKeys(after) == order by {
      assert after.keys == memory.keys;
    }
  }

  /** Overwriting each of distinct names with its level, then reading them back. */
  lemma AssignedLevels(memory: Dict<string, bool>, order: seq<string>, levels: seq<bool>)
    requires memory.Valid() && Distinct(order) && |order| == |levels|
    requires forall k :: k in order ==> k in memory.entries
    ensures Assign(memory, order, levels).Valid()
    ensures Assign(memory, order, levels).ValuesOf(order) == levels
  {
    var after := Assign(memory, order, levels);
    assert Zipped(order, levels) == |levels|;
    ReadBack(after, order, levels);
  }

  /** Reading the names of `order` off a memory that holds `levels` under them gives `levels`. */
  lemma ReadBack(memory: Dict<string, bool>, order: seq<string>, levels: seq<bool>)
    requires forall k :: k in order ==> k in memory.entries
    requires |order| == |levels| && forall i :: 0 <= i < |levels| ==> memory.entries[order[i]] == levels[i]
    ensures memory.ValuesOf(order) == levels
  {
    var got := memory.ValuesOf(order);
    assert forall i :: 0 <= i < |levels| ==> got[i] == levels[i];
  }


  /** `state()` after `load_state(states)` with one state of the right
      shape per module, in sorted name order, gives `states` back. */
  lemma SnapshotRestored(net: Network, states: seq<State>)
    requires net.Valid() && MemoriesValid(net)
    requires |states| == |net.keys|
    requires forall i :: 0 <= i < |states| ==> Fits(net.entries[SortedKeys(net)[i]], states[i])
    ensures Restore(net, states).Ok? && Snapshot(Restore(net, states).value) == states
  {
    var order := SortedKeys(net);
    RestoreFits(net, states);
    var after := Restore(net, states).value;
    assert SortedKeys(after) == order;
    forall i | 0 <= i < |states|
      ensures StateOf(after.entries[order[i]]) == states[i]
    {
      LoadedState(net.entries[order[i]], states[i]);
    }
  }

  /** Loading one state of the right shape per module succeeds, each
      module getting what loading its own state gives. */
  lemma RestoreFits(net: Network, states: seq<State>)
    requires net.Valid() && MemoriesValid(net)
    requires |states| == |net.keys|
    requires forall i :: 0 <= i < |states| ==> Fits(net.entries[SortedKeys(net)[i]], states[i])
    ensures Restore(net, states).Ok?
    ensures forall i :: 0 <= i < |states| ==>
      LoadState(net.entries[SortedKeys(net)[i]], states[i]) == Ok(Restore(net, states).value.entries[SortedKeys(net)[i]])
  {
    var order := SortedKeys(net);
    assert |order| == |net.keys| by {
      assert multiset(order) == multiset(net.keys);
    }
    assert Zipped(order, states) == |states|;
    forall i | 0 <= i < |states|
      ensures LoadState(net.entries[order[i]], states[i]).Ok?
    {
      LoadedState(net.entries[order[i]], states[i]);
    }
    RestoreFromFails(net, order, states);
    RestoreFromLoads(net, order, states);
  }

}
