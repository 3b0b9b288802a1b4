/**
 * Day 19, part 1: machine parts routed through named workflows (19.py).
 *
 * A part carries four ratings, `x`, `m`, `a` and `s`. A workflow (`Rule`)
 * holds a list of conditionals, each comparing one rating with a threshold
 * and naming a destination, and a fallback destination. A part starts at
 * the workflow `in` and moves from workflow to workflow until it reaches
 * an end state, `A` (accepted) or `R` (rejected). The answer sums the
 * ratings of the accepted parts.
 *
 * The classification loop need not stop (workflows may form a cycle), so
 * it is modelled under an iteration bound with `Run`; an independent
 * description of the loop, `Walk`, follows the states a part visits, and
 * `ClassifyMeaning` connects the two.
 */
module Workflows {
  import opened Outcomes

  /** The three comparison operators the grammar admits. */
  datatype Comparator = Equals | LessThan | GreaterThan {
    /** Whether a rating `p` passes the comparison with threshold `v`. */
    predicate Holds(p: int, v: int)
    {
      match this
      case Equals => p == v
      case LessThan => p < v
      case GreaterThan => p > v
    }
  }

  /** `comparator_str_to_func`: the operator a symbol denotes, or `None`
      when the symbol is none of `=`, `<`, `>` (the Python function then
      falls off its end). */
  function ComparatorOf(c: char): (r: Option<Comparator>)
    ensures r.Some? <==> c in "=<>"
    ensures r.Some? ==> forall p: int, v: int ::
      r.value.Holds(p, v) <==> (c == '=' && p == v) || (c == '<' && p < v) || (c == '>' && p > v)
  {
    if c == '=' then Some(Equals)
    else if c == '<' then Some(LessThan)
    else if c == '>' then Some(GreaterThan)
    else None
  }

  /** A part and its four ratings. */
  datatype Part = Part(x: int, m: int, a: int, s: int)

  /** The property letters, in the order part 2 numbers them. */
  const Letters: string := "xmas"

  /** `part.properties[letter]`: the rating a letter names; any other key
      is missing from the dictionary. */
  function Rating(part: Part, letter: char): (r: Result<int>)
    ensures r.Ok? <==> letter in Letters
    ensures r.Err? ==> r.error == KeyError
  {
    if letter == 'x' then Ok(part.x)
    else if letter == 'm' then Ok(part.m)
    else if letter == 'a' then Ok(part.a)
    else if letter == 's' then Ok(part.s)
    else Err(KeyError)
  }

  /** `rated_value`: the sum of the four ratings. */
  function RatedValue(part: Part): int
  {
    part.x + part.m + part.a + part.s
  }

  /** One conditional of a workflow: `property comparator value:destination`. */
  datatype Conditional = Conditional(property: char, comparator: Comparator, value: int, destination: string)

  /** `Conditional.test`: the named rating compared with the threshold. */
  function Test(c: Conditional, part: Part): (r: Result<bool>)
    ensures r.Ok? <==> c.property in Letters
    ensures r.Err? ==> r.error == KeyError
    ensures c.property == 'x' ==> r == Ok(c.comparator.Holds(part.x, c.value))
    ensures c.property == 'm' ==> r == Ok(c.comparator.Holds(part.m, c.value))
    ensures c.property == 'a' ==> r == Ok(c.comparator.Holds(part.a, c.value))
    ensures c.property == 's' ==> r == Ok(c.comparator.Holds(part.s, c.value))
  {
    var p :- Rating(part, c.property);
    Ok(c.comparator.Holds(p, c.value))
  }

  /** A workflow: its name, its conditionals in order and its fallback. */
  datatype Rule = Rule(name: string, conditionals: seq<Conditional>, fallback: string)

  /** The loop of `Rule.process` over the conditionals still to try. */
  function Route(conditionals: seq<Conditional>, part: Part, fallback: string): (r: Result<string>)
    ensures r.Err? ==> r.error == KeyError
  {
    if |conditionals| == 0 then Ok(fallback)
    else
      var passes :- Test(conditionals[0], part);
      if passes then Ok(conditionals[0].destination) else Route(conditionals[1..], part, fallback)
  }

  /** `Rule.process`: the destination of the first conditional the part
      passes, or the fallback when it passes none. */
  function Process(rule: Rule, part: Part): (r: Result<string>)
    ensures r.Err? ==> r.error == KeyError
  {
    Route(rule.conditionals, part, rule.fallback)
  }

  /** The part fails each of the first `i` conditionals (each of them
      names a real rating). */
  predicate FailsBefore(conditionals: seq<Conditional>, part: Part, i: nat)
    requires i <= |conditionals|
  {
    forall j :: 0 <= j < i ==> Test(conditionals[j], part) == Ok(false)
  }

  /** The part reaches conditional `i` and passes it. */
  predicate FirstPassed(conditionals: seq<Conditional>, part: Part, i: nat)
  {
    i < |conditionals| && FailsBefore(conditionals, part, i) && Test(conditionals[i], part) == Ok(true)
  }

  lemma FailsBeforeShift(conditionals: seq<Conditional>, part: Part, i: nat)
    requires 0 < |conditionals| && i < |conditionals|
    ensures FailsBefore(conditionals, part, i + 1)
        <==> Test(conditionals[0], part) == Ok(false) && FailsBefore(conditionals[1..], part, i)
  {
    if Test(conditionals[0], part) == Ok(false) && FailsBefore(conditionals[1..], part, i) {
      forall j | 0 <= j < i + 1
        ensures Test(conditionals[j], part) == Ok(false)
      {
        if j > 0 {
          assert conditionals[j] == conditionals[1..][j - 1];
        }
      }
    }
    if FailsBefore(conditionals, part, i + 1) {
      forall j | 0 <= j < i
        ensures Test(conditionals[1..][j], part) == Ok(false)
      {
        assert conditionals[1..][j] == conditionals[j + 1];
      }
    }
  }

  /** `Rule.process` chooses a destination exactly when the part passes a
      first conditional with that destination, or passes none and the
      destination is the fallback; it fails exactly when the first
      conditional it cannot fail names no rating. */
  lemma {:induction false} ProcessMeaning(rule: Rule, part: Part, d: string)
    ensures Process(rule, part) == Ok(d) <==>
      (exists i: nat :: FirstPassed(rule.conditionals, part, i) && rule.conditionals[i].destination == d)
      || (FailsBefore(rule.conditionals, part, |rule.conditionals|) && d == rule.fallback)
    ensures Process(rule, part).Err? <==>
      exists i :: 0 <= i < |rule.conditionals| && FailsBefore(rule.conditionals, part, i)
                  && Test(rule.conditionals[i], part).Err?
  {
    RouteChooses(rule.conditionals, part, rule.fallback, d);
    RouteFails(rule.conditionals, part, rule.fallback);
  }

  /** When the part fails the first conditional, the indices of the rest
      are those of the whole shifted by one. */
  lemma RouteSkips(cs: seq<Conditional>, part: Part)
    requires 0 < |cs| && Test(cs[0], part) == Ok(false)
    ensures forall i :: 0 <= i < |cs| - 1 ==>
      (FirstPassed(cs, part, i + 1) <==> FirstPassed(cs[1..], part, i))
      && (FailsBefore(cs, part, i + 1) <==> FailsBefore(cs[1..], part, i))
    ensures FailsBefore(cs, part, |cs|) <==> FailsBefore(cs[1..], part, |cs| - 1)
  {
    FailsBeforeShift(cs, part, |cs| - 1);
    forall i | 0 <= i < |cs| - 1
      ensures FirstPassed(cs, part, i + 1) <==> FirstPassed(cs[1..], part, i)
      ensures FailsBefore(cs, part, i + 1) <==> FailsBefore(cs[1..], part, i)
    {
      FailsBeforeShift(cs, part, i);
      assert cs[i + 1] == cs[1..][i];
    }
  }

  lemma {:induction false} RouteChooses(cs: seq<Conditional>, part: Part, fallback: string, d: string)
    ensures Route(cs, part, fallback) == Ok(d) <==>
      (exists i: nat :: FirstPassed(cs, part, i) && cs[i].destination == d)
      || (FailsBefore(cs, part, |cs|) && d == fallback)
    decreases |cs|
  {
    if |cs| == 0 {
      assert FailsBefore(cs, part, 0);
    } else {
      var rest := cs[1..];
      assert FailsBefore(cs, part, 0);
      var t := Test(cs[0], part);
      assert forall i: nat :: 0 < i <= |cs| && FailsBefore(cs, part, i) ==> t == Ok(false);
      if t.Err? {
        assert Route(cs, part, fallback).Err?;
      } else if t.value {
        assert FirstPassed(cs, part, 0);
      } else {
        RouteChooses(rest, part, fallback, d);
        RouteSkips(cs, part);
        if exists i: nat :: FirstPassed(cs, part, i) && cs[i].destination == d {
          var i: nat :| FirstPassed(cs, part, i) && cs[i].destination == d;
          assert FirstPassed(rest, part, i - 1) && rest[i - 1].destination == d;
        }
        if exists i: nat :: FirstPassed(rest, part, i) && rest[i].destination == d {
          var i: nat :| FirstPassed(rest, part, i) && rest[i].destination == d;
          assert FirstPassed(cs, part, i + 1) && cs[i + 1].destination == d;
        }
      }
    }
  }

  lemma {:induction false} RouteFails(cs: seq<Conditional>, part: Part, fallback: string)
    ensures Route(cs, part, fallback).Err? <==>
      exists i :: 0 <= i < |cs| && FailsBefore(cs, part, i) && Test(cs[i], part).Err?
    decreases |cs|
  {
    if |cs| > 0 {
      var rest := cs[1..];
      assert FailsBefore(cs, part, 0);
      var t := Test(cs[0], part);
      assert forall i: nat :: 0 < i <= |cs| && FailsBefore(cs, part, i) ==> t == Ok(false);
      if t == Ok(false) {
        RouteFails(rest, part, fallback);
        RouteSkips(cs, part);
        if exists i :: 0 <= i < |cs| && FailsBefore(cs, part, i) && Test(cs[i], part).Err? {
          var i :| 0 <= i < |cs| && FailsBefore(cs, part, i) && Test(cs[i], part).Err?;
          assert FailsBefore(rest, part, i - 1) && Test(rest[i - 1], part).Err?;
        }
        if exists i :: 0 <= i < |rest| && FailsBefore(rest, part, i) && Test(rest[i], part).Err? {
          var i :| 0 <= i < |rest| && FailsBefore(rest, part, i) && Test(rest[i], part).Err?;
          assert FailsBefore(cs, part, i + 1) && Test(cs[i + 1], part).Err?;
        }
      }
    }
  }

  /** `Document.__init__`: the workflows by name; when two share a name the
      later one replaces the earlier. */
  function Table(rules: seq<Rule>): map<string, Rule>
  {
    if |rules| == 0 then map[]
    else
      var last := rules[|rules| - 1];
      Table(rules[..|rules| - 1])[last.name := last]
  }

  /** A name is in the table exactly when some workflow has it, and it
      maps to the last workflow with that name. */
  lemma {:induction false} TableLookup(rules: seq<Rule>, name: string)
    ensures name in Table(rules) <==> exists i :: 0 <= i < |rules| && rules[i].name == name
    ensures name in Table(rules) ==>
      exists i :: (0 <= i < |rules| && Table(rules)[name] == rules[i]
                   && rules[i].name == name && forall j :: i < j < |rules| ==> rules[j].name != name)
    decreases |rules|
  {
    if |rules| > 0 {
      var init := rules[..|rules| - 1];
      var last := rules[|rules| - 1];
      TableLookup(init, name);
      if last.name != name {
        if exists i :: 0 <= i < |rules| && rules[i].name == name {
          var i :| 0 <= i < |rules| && rules[i].name == name;
          assert init[i].name == name;
        }
        if name in Table(rules) {
          var i :| 0 <= i < |init| && Table(init)[name] == init[i]
            && init[i].name == name && forall j :: i < j < |init| ==> init[j].name != name;
          assert rules[i] == init[i];
          assert forall j :: i < j < |rules| ==> rules[j].name != name by {
            forall j | i < j < |rules|
              ensures rules[j].name != name
            {
              if j < |init| {
                assert rules[j] == init[j];
              }
            }
          }
        }
      } else {
        assert Table(rules)[name] == rules[|rules| - 1];
      }
    }
  }

  /** The workflow a part moves to from `current`; an unknown workflow is
      a missing dictionary key. */
  function Next(table: map<string, Rule>, part: Part, current: string): Result<string>
  {
    if current !in table then Err(KeyError) else Process(table[current], part)
  }

  /** The state after `k` rounds of the classification loop from `start`,
      ignoring end states: the path a part follows through the workflows. */
  function Walk(table: map<string, Rule>, part: Part, start: string, k: nat): Result<string>
  {
    if k == 0 then Ok(start)
    else
      var here :- Walk(table, part, start, k - 1);
      Next(table, part, here)
  }

  /** The first `k` states of the walk exist and none of them is an end state. */
  predicate Travels(table: map<string, Rule>, part: Part, start: string, end: set<string>, k: nat)
  {
    forall j :: 0 <= j < k ==> Walk(table, part, start, j).Ok? && Walk(table, part, start, j).value !in end
  }

  /** `Document.classify` under an iteration bound: from `current`, follow
      the workflows until an end state. */
  function Classify(table: map<string, Rule>, part: Part, current: string, end: set<string>, fuel: nat): (r: Run<string>)
    ensures r.Ended? && r.outcome.Ok? ==> r.outcome.value in end
    ensures r.Ended? && r.outcome.Err? ==> r.outcome.error == KeyError
    decreases fuel
  {
    if current in end then Ended(Ok(current))
    else if fuel == 0 then Unfinished
    else
      match Next(table, part, current)
      case Err(e) => Ended(Err(e))
      case Ok(next) => Classify(table, part, next, end, fuel - 1)
  }

  /** A walk from `start` is a step to the next workflow followed by a walk from there. */
  lemma {:induction false} WalkShift(table: map<string, Rule>, part: Part, start: string, k: nat)
    ensures Next(table, part, start).Ok? ==>
      Walk(table, part, start, k + 1) == Walk(table, part, Next(table, part, start).value, k)
    ensures Next(table, part, start).Err? ==> Walk(table, part, start, k + 1).Err?
  {
    if k > 0 {
      WalkShift(table, part, start, k - 1);
    }
  }

  lemma TravelsShift(table: map<string, Rule>, part: Part, start: string, end: set<string>, k: nat)
    requires start !in end && Next(table, part, start).Ok?
    ensures Travels(table, part, start, end, k + 1) <==> Travels(table, part, Next(table, part, start).value, end, k)
  {
    var next := Next(table, part, start).value;
    forall j | 0 <= j < k
      ensures Walk(table, part, start, j + 1) == Walk(table, part, next, j)
    {
      WalkShift(table, part, start, j);
    }
    if Travels(table, part, next, end, k) {
      forall j | 0 <= j < k + 1
        ensures Walk(table, part, start, j).Ok? && Walk(table, part, start, j).value !in end
      {
        if j > 0 {
          assert Walk(table, part, start, (j - 1) + 1) == Walk(table, part, next, j - 1);
        }
      }
    }
    if Travels(table, part, start, end, k + 1) {
      forall j | 0 <= j < k
        ensures Walk(table, part, next, j).Ok? && Walk(table, part, next, j).value !in end
      {
        assert Walk(table, part, start, j + 1) == Walk(table, part, next, j);
      }
    }
  }

  /** A walk that reaches an end state within the bound, passing no end
      state before, is where classification ends. */
  lemma {:induction false} ClassifyReaches(table: map<string, Rule>, part: Part, current: string, end: set<string>, fuel: nat, k: nat)
    requires k <= fuel && Travels(table, part, current, end, k)
    requires Walk(table, part, current, k).Ok? && Walk(table, part, current, k).value in end
    ensures Classify(table, part, current, end, fuel) == Ended(Walk(table, part, current, k))
    decreases k
  {
    if k == 0 {
      assert Walk(table, part, current, 0) == Ok(current);
    } else {
      assert Walk(table, part, current, 0) == Ok(current);
      WalkShift(table, part, current, 0);
      var next := Next(table, part, current).value;
      TravelsShift(table, part, current, end, k - 1);
      WalkShift(table, part, current, k - 1);
      ClassifyReaches(table, part, next, end, fuel - 1, k - 1);
    }
  }

  /** Where classification ends, the walk arrives within the bound. */
  lemma {:induction false} ClassifyTravels(table: map<string, Rule>, part: Part, current: string, end: set<string>, fuel: nat)
    requires Classify(table, part, current, end, fuel).Ended? && Classify(table, part, current, end, fuel).outcome.Ok?
    ensures exists k: nat :: (k <= fuel && Travels(table, part, current, end, k)
                              && Walk(table, part, current, k) == Classify(table, part, current, end, fuel).outcome)
    decreases fuel
  {
    if current in end {
      assert Travels(table, part, current, end, 0);
      assert Walk(table, part, current, 0) == Ok(current);
    } else {
      var next := Next(table, part, current).value;
      ClassifyTravels(table, part, next, end, fuel - 1);
      var k: nat :| k <= fuel - 1 && Travels(table, part, next, end, k)
        && Walk(table, part, next, k) == Classify(table, part, next, end, fuel - 1).outcome;
      TravelsShift(table, part, current, end, k);
      WalkShift(table, part, current, k);
      assert Travels(table, part, current, end, k + 1);
    }
  }

  /** Classification ends in `t` exactly when the walk from `current`
      reaches the end state `t` within the bound, passing no end state on
      the way. */
  lemma ClassifyMeaning(table: map<string, Rule>, part: Part, current: string, end: set<string>, fuel: nat, t: string)
    ensures Classify(table, part, current, end, fuel) == Ended(Ok(t)) <==>
      exists k: nat :: k <= fuel && Travels(table, part, current, end, k)
                       && Walk(table, part, current, k) == Ok(t) && t in end
  {
    if Classify(table, part, current, end, fuel) == Ended(Ok(t)) {
      ClassifyTravels(table, part, current, end, fuel);
    }
    if exists k: nat :: k <= fuel && Travels(table, part, current, end, k)
                       && Walk(table, part, current, k) == Ok(t) && t in end {
      var k: nat :| k <= fuel && Travels(table, part, current, end, k)
                    && Walk(table, part, current, k) == Ok(t) && t in end;
      ClassifyReaches(table, part, current, end, fuel, k);
    }
  }

  /** A bound large enough to finish the loop gives the same outcome as any larger bound. */
  lemma {:induction false} ClassifyMoreFuel(table: map<string, Rule>, part: Part, current: string, end: set<string>, fuel: nat, more: nat)
    requires Classify(table, part, current, end, fuel).Ended? && fuel <= more
    ensures Classify(table, part, current, end, more) == Classify(table, part, current, end, fuel)
    decreases fuel
  {
    if current !in end && Next(table, part, current).Ok? {
      ClassifyMoreFuel(table, part, Next(table, part, current).value, end, fuel - 1, more - 1);
    }
  }

  /** The workflows' start and end states used by `main`. */
  const Start: string := "in"
  const Accepted: string := "A"
  const Rejected: string := "R"

  /** `main`: the rated values of the parts classified as accepted, in
      input order; a part that raises or loops stops the sum. */
  function Total(table: map<string, Rule>, parts: seq<Part>, fuel: nat): (r: Run<int>)
    ensures r.Ended? && r.outcome.Err? ==> r.outcome.error == KeyError
    ensures |parts| == 0 ==> r == Ended(Ok(0))
  {
    if |parts| == 0 then Ended(Ok(0))
    else
      match Classify(table, parts[0], Start, {Accepted, Rejected}, fuel)
      case Unfinished => Unfinished
      case Ended(Err(e)) => Ended(Err(e))
      case Ended(Ok(state)) =>
        match Total(table, parts[1..], fuel)
        case Unfinished => Unfinished
        case Ended(Err(e)) => Ended(Err(e))
        case Ended(Ok(rest)) => Ended(Ok((if state == Accepted then RatedValue(parts[0]) else 0) + rest))
  }

  /** The total over a concatenation is the sum of the totals. */
  lemma {:induction false} TotalAppend(table: map<string, Rule>, left: seq<Part>, right: seq<Part>, fuel: nat)
    requires Total(table, left, fuel).Ended? && Total(table, left, fuel).outcome.Ok?
    ensures Total(table, left + right, fuel) ==
      match Total(table, right, fuel)
      case Ended(Ok(r)) => Ended(Ok(Total(table, left, fuel).outcome.value + r))
      case other => other
    decreases |left|
  {
    if |left| == 0 {
      assert left + right == right;
    } else {
      assert (left + right)[1..] == left[1..] + right;
      assert (left + right)[0] == left[0];
      TotalAppend(table, left[1..], right, fuel);
    }
  }

  /** A part contributes its rated value exactly when its walk from `in`
      reaches `A` before any other end state. */
  lemma TotalSingle(table: map<string, Rule>, part: Part, fuel: nat)
    requires Classify(table, part, Start, {Accepted, Rejected}, fuel).Ended?
    requires Classify(table, part, Start, {Accepted, Rejected}, fuel).outcome.Ok?
    ensures Total(table, [part], fuel) == Ended(Ok(
      if exists k: nat :: k <= fuel && Travels(table, part, Start, {Accepted, Rejected}, k)
                     && Walk(table, part, Start, k) == Ok(Accepted)
      then RatedValue(part) else 0))
  {
    assert [part][1..] == [];
    ClassifyMeaning(table, part, Start, {Accepted, Rejected}, fuel, Accepted);
  }
}
