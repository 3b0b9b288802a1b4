/**
 * Lens Library, second part (15p2.py): the HASHMAP. 256 boxes hold lenses,
 * each stored as its name followed by a single focal-length character.
 * A step "name-" takes the lens with that name out of box
 * `Hash(name)`; a step "name=f" replaces that lens in place, or adds one
 * at the back of the box.
 */
module Lenses {
  import opened Outcomes
  import opened Seqs
  import opened Hashing

  type Box = seq<string>

  const BoxCount := 256

  function EmptyBoxes(): (boxes: seq<Box>)
    ensures |boxes| == BoxCount && forall b :: 0 <= b < BoxCount ==> boxes[b] == []
  {
    seq(BoxCount, b => [])
  }

  /** `element[:-1]`: a stored lens without its focal length. */
  function Label(lens: string): string
  {
    if |lens| == 0 then lens else lens[..|lens| - 1]
  }

  /** The `for index, element in enumerate(bucket)` search with its
      `break` (15p2.py:45-48 and 57-60), from position `i` on. */
  function FindFrom(slots: Box, name: string, i: nat): (r: Option<nat>)
    requires i <= |slots|
    ensures r.Some? ==> (i <= r.value < |slots| && Label(slots[r.value]) == name
      && forall j :: i <= j < r.value ==> Label(slots[j]) != name)
    ensures r.None? ==> forall j :: i <= j < |slots| ==> Label(slots[j]) != name
    decreases |slots| - i
  {
    if i == |slots| then None
    else if Label(slots[i]) == name then Some(i)
    else FindFrom(slots, name, i + 1)
  }

  function Find(slots: Box, name: string): (r: Option<nat>)
    ensures r.Some? ==> (r.value < |slots| && Label(slots[r.value]) == name
      && forall j :: 0 <= j < r.value ==> Label(slots[j]) != name)
    ensures r.None? ==> forall j :: 0 <= j < |slots| ==> Label(slots[j]) != name
  {
    FindFrom(slots, name, 0)
  }

  /** The '-' operation on one slots (15p2.py:44-48): drop the first lens
      with the name, if any. */
  function Remove(slots: Box, name: string): (r: Box)
  {
    match Find(slots, name)
    case Some(i) => slots[..i] + slots[i + 1..]
    case None => slots
  }

  /** The '=' operation on one slots (15p2.py:56-62): overwrite the first
      lens with the name, or else append the new lens. */
  function Put(slots: Box, name: string, focal: char): (r: Box)
  {
    match Find(slots, name)
    case Some(i) => slots[i := name + [focal]]
    case None => slots + [name + [focal]]
  }

  /** One step of `init_sequence` (15p2.py:36-62). `s[-1]` fails on an
      empty step and `s[-2]` on a one-character step that is not "-"; a
      step with neither '-' last nor '=' second to last does nothing. */
  function Step(boxes: seq<Box>, s: string): (r: Result<seq<Box>>)
    requires |boxes| == BoxCount
    ensures r.Ok? ==> |r.value| == BoxCount
    ensures r.Err? <==> |s| == 0 || (|s| == 1 && s[0] != '-')
    ensures r.Err? ==> r.error == IndexError
  {
    if |s| == 0 then Err(IndexError)
    else if s[|s| - 1] == '-' then
      var name := s[..|s| - 1];
      var h := Hash(name);
      Ok(boxes[h := Remove(boxes[h], name)])
    else if |s| < 2 then Err(IndexError)
    else if s[|s| - 2] == '=' then
      var name := s[..|s| - 2];
      var h := Hash(name);
      Ok(boxes[h := Put(boxes[h], name, s[|s| - 1])])
    else Ok(boxes)
  }

  /** The steps `Step` fails on. */
  predicate Malformed(s: string)
  {
    |s| == 0 || (|s| == 1 && s[0] != '-')
  }

  /** All steps in order, stopping at the first that fails. */
  function Arrange(boxes: seq<Box>, steps: seq<string>): (r: Result<seq<Box>>)
    requires |boxes| == BoxCount
    ensures r.Ok? ==> |r.value| == BoxCount
    ensures r.Ok? <==> forall i :: 0 <= i < |steps| ==> Malformed(steps[i]) == false
  {
    if |steps| == 0 then Ok(boxes)
    else
      var before :- Arrange(boxes, steps[..|steps| - 1]);
      Step(before, steps[|steps| - 1])
  }

  // ------------------------------------------------------------ invariants

  /** No two lenses of a slots share a name. */
  predicate Unique(slots: Box)
  {
    forall i, j :: 0 <= i < j < |slots| ==> Label(slots[i]) != Label(slots[j])
  }

  /** The HASHMAP invariant: every lens is a name plus one character,
      sits in the slots its name hashes to, and is the only lens with that
      name there. */
  predicate WellFormed(boxes: seq<Box>)
  {
    && |boxes| == BoxCount
    && (forall b, j :: 0 <= b < |boxes| && 0 <= j < |boxes[b]| ==>
          |boxes[b][j]| >= 1 && Hash(Label(boxes[b][j])) == b)
    && (forall b :: 0 <= b < |boxes| ==> Unique(boxes[b]))
  }

  /** The lens the map holds for a name: looked up in its slots only. */
  function Lookup(boxes: seq<Box>, name: string): Option<string>
    requires |boxes| == BoxCount
  {
    var slots := boxes[Hash(name)];
    match Find(slots, name)
    case Some(i) => Some(slots[i])
    case None => None
  }

  /** In a slots with unique labels, the lens holding a name is the one
      found. */
  lemma FindUnique(slots: Box, name: string, j: nat)
    requires Unique(slots) && j < |slots| && Label(slots[j]) == name
    ensures Find(slots, name) == Some(j)
  {
  }

  lemma LabelOf(name: string, focal: char)
    ensures Label(name + [focal]) == name
  {
  }

  /** Removing takes out exactly the lens with the name and keeps the
      order of the others; a slots without it is unchanged. */
  lemma RemoveSpec(slots: Box, name: string)
    requires Unique(slots)
    ensures Unique(Remove(slots, name))
    ensures Find(Remove(slots, name), name) == None
    ensures forall m :: m != name ==>
      (match Find(slots, m)
       case Some(j) => Find(Remove(slots, name), m).Some? && Remove(slots, name)[Find(Remove(slots, name), m).value] == slots[j]
       case None => Find(Remove(slots, name), m) == None)
    ensures Find(slots, name).None? ==> Remove(slots, name) == slots
    ensures Find(slots, name).Some? ==> |Remove(slots, name)| == |slots| - 1
  {
    RemoveShape(slots, name);
    forall m | m != name
      ensures match Find(slots, m)
        case Some(j) => Find(Remove(slots, name), m).Some? && Remove(slots, name)[Find(Remove(slots, name), m).value] == slots[j]
        case None => Find(Remove(slots, name), m) == None
    {
      RemoveKeeps(slots, name, m);
    }
  }

  /** The slots after removing: still unique, without the name, one lens
      shorter exactly when the name was there. */
  lemma RemoveShape(slots: Box, name: string)
    requires Unique(slots)
    ensures Unique(Remove(slots, name))
    ensures Find(Remove(slots, name), name) == None
    ensures Find(slots, name).None? ==> Remove(slots, name) == slots
    ensures Find(slots, name).Some? ==> |Remove(slots, name)| == |slots| - 1
  {
    var r := Remove(slots, name);
    match Find(slots, name)
    case None =>
    case Some(i) =>
      assert r == slots[..i] + slots[i + 1..];
      assert forall j :: 0 <= j < i ==> r[j] == slots[j];
      assert forall j :: i <= j < |r| ==> r[j] == slots[j + 1];
  }

  /** Another name's lens survives removal, and a missing one stays missing. */
  lemma RemoveKeeps(slots: Box, name: string, m: string)
    requires Unique(slots) && m != name
    ensures match Find(slots, m)
      case Some(j) => Find(Remove(slots, name), m).Some? && Remove(slots, name)[Find(Remove(slots, name), m).value] == slots[j]
      case None => Find(Remove(slots, name), m) == None
  {
    RemoveShape(slots, name);
    var r := Remove(slots, name);
    match Find(slots, name)
    case None =>
    case Some(i) =>
      assert r == slots[..i] + slots[i + 1..];
      match Find(slots, m)
      case Some(j) =>
        if j < i {
          assert r[j] == slots[j];
          FindUnique(r, m, j);
        } else {
          assert j != i;
          assert r[j - 1] == slots[j];
          FindUnique(r, m, j - 1);
        }
      case None =>
        assert forall k :: 0 <= k < |r| ==> r[k] in slots;
  }

  /** Putting leaves exactly one lens with the name, holding the new focal
      length, in the old lens's place or at the back; the other lenses keep
      their places. */
  lemma PutSpec(slots: Box, name: string, focal: char)
    requires Unique(slots)
    ensures Unique(Put(slots, name, focal))
    ensures Find(Put(slots, name, focal), name).Some?
    ensures Put(slots, name, focal)[Find(Put(slots, name, focal), name).value] == name + [focal]
    ensures Find(slots, name).Some? ==>
      && |Put(slots, name, focal)| == |slots|
      && Find(Put(slots, name, focal), name) == Find(slots, name)
      && forall j :: 0 <= j < |slots| && j != Find(slots, name).value ==> Put(slots, name, focal)[j] == slots[j]
    ensures Find(slots, name).None? ==> Put(slots, name, focal) == slots + [name + [focal]]
    ensures forall m :: m != name ==> Find(Put(slots, name, focal), m) == Find(slots, m)
  {
    var lens := name + [focal];
    LabelOf(name, focal);
    var r := Put(slots, name, focal);
    match Find(slots, name)
    case Some(i) =>
      FindUnique(r, name, i);
      forall m | m != name
        ensures Find(r, m) == Find(slots, m)
      {
        match Find(slots, m)
        case Some(j) => FindUnique(r, m, j);
        case None =>
      }
    case None =>
      FindUnique(r, name, |slots|);
      forall m | m != name
        ensures Find(r, m) == Find(slots, m)
      {
        match Find(slots, m)
        case Some(j) => FindUnique(r, m, j);
        case None =>
      }
  }

  /** A "name-" step: afterwards the map holds no lens for the name, every
      other name maps to the same lens, and no other slots changes. */
  lemma StepRemoves(boxes: seq<Box>, s: string)
    requires WellFormed(boxes)
    requires |s| > 0 && s[|s| - 1] == '-'
    ensures var name := s[..|s| - 1];
      && Step(boxes, s).Ok?
      && WellFormed(Step(boxes, s).value)
      && Lookup(Step(boxes, s).value, name) == None
      && (forall m :: m != name ==> Lookup(Step(boxes, s).value, m) == Lookup(boxes, m))
      && (forall b :: 0 <= b < BoxCount && b != Hash(name) ==> Step(boxes, s).value[b] == boxes[b])
  {
    var name := s[..|s| - 1];
    var h := Hash(name);
    var slots := boxes[h];
    RemoveSpec(slots, name);
    var after := Step(boxes, s).value;
    assert after == boxes[h := Remove(slots, name)];
    var r := Remove(slots, name);
    assert forall j :: 0 <= j < |r| ==> exists k :: 0 <= k < |slots| && r[j] == slots[k] by {
      match Find(slots, name)
      case None =>
      case Some(i) =>
        forall j | 0 <= j < |r|
          ensures exists k :: 0 <= k < |slots| && r[j] == slots[k]
        {
          if j < i {
            assert r[j] == slots[j];
          } else {
            assert r[j] == slots[j + 1];
          }
        }
    }
    forall m | m != name
      ensures Lookup(after, m) == Lookup(boxes, m)
    {
      if Hash(m) == h {
        match Find(slots, m)
        case Some(j) =>
        case None =>
      }
    }
  }

  /** A "name=f" step: afterwards the map holds `name` followed by `f`
      for the name, every other name maps to the same lens, and no other
      slots changes. */
  lemma StepPuts(boxes: seq<Box>, s: string)
    requires WellFormed(boxes)
    requires |s| >= 2 && s[|s| - 1] != '-' && s[|s| - 2] == '='
    ensures var name := s[..|s| - 2];
      && Step(boxes, s).Ok?
      && WellFormed(Step(boxes, s).value)
      && Lookup(Step(boxes, s).value, name) == Some(name + [s[|s| - 1]])
      && (forall m :: m != name ==> Lookup(Step(boxes, s).value, m) == Lookup(boxes, m))
      && (forall b :: 0 <= b < BoxCount && b != Hash(name) ==> Step(boxes, s).value[b] == boxes[b])
  {
    var name := s[..|s| - 2];
    var focal := s[|s| - 1];
    var h := Hash(name);
    var slots := boxes[h];
    PutSpec(slots, name, focal);
    LabelOf(name, focal);
    var after := Step(boxes, s).value;
    assert after == boxes[h := Put(slots, name, focal)];
    var r := Put(slots, name, focal);
    assert forall j :: 0 <= j < |r| ==> r[j] == name + [focal] || exists k :: 0 <= k < |slots| && r[j] == slots[k] by {
      forall j | 0 <= j < |r|
        ensures r[j] == name + [focal] || exists k :: 0 <= k < |slots| && r[j] == slots[k]
      {
        if j < |slots| && r[j] != name + [focal] {
          assert r[j] == slots[j];
        }
      }
    }
    forall m | m != name
      ensures Lookup(after, m) == Lookup(boxes, m)
    {
      if Hash(m) == h {
        match Find(slots, m)
        case Some(j) =>
          assert r[j] == slots[j] by {
            if Find(slots, name).Some? {
              assert j != Find(slots, name).value;
            }
          }
        case None =>
      }
    }
  }

  /** A step of two or more characters with neither '-' last nor '='
      second to last changes nothing. */
  lemma StepIgnores(boxes: seq<Box>, s: string)
    requires |boxes| == BoxCount
    requires |s| >= 2 && s[|s| - 1] != '-' && s[|s| - 2] != '='
    ensures Step(boxes, s) == Ok(boxes)
  {
  }

  /** Every successful run of steps from well-formed boxes keeps the
      HASHMAP invariant. */
  lemma {:induction false} ArrangeWellFormed(boxes: seq<Box>, steps: seq<string>)
    requires WellFormed(boxes)
    ensures Arrange(boxes, steps).Ok? ==> WellFormed(Arrange(boxes, steps).value)
    decreases |steps|
  {
    if |steps| > 0 {
      ArrangeWellFormed(boxes, steps[..|steps| - 1]);
      var prior := Arrange(boxes, steps[..|steps| - 1]);
      if prior.Ok? {
        var s := steps[|steps| - 1];
        if |s| > 0 && s[|s| - 1] == '-' {
          StepRemoves(prior.value, s);
        } else if |s| >= 2 && s[|s| - 2] == '=' {
          StepPuts(prior.value, s);
        } else if |s| >= 2 {
          StepIgnores(prior.value, s);
        }
      }
    }
  }

  // ------------------------------------------------------------ focusing

  /** `int(element[-1])` of the ASCII digits, and ValueError otherwise. */
  function FocalLength(lens: string): (r: Result<nat>)
    ensures r.Ok? <==> |lens| > 0 && IsDigit(lens[|lens| - 1])
    ensures r.Ok? ==> r.value <= 9
  {
    if |lens| == 0 then Err(IndexError)
    else if IsDigit(lens[|lens| - 1]) then Ok(DigitValue(lens[|lens| - 1]))
    else Err(ValueError)
  }

  /** The focusing power of the first `k` lenses of slots number `b`. */
  function BoxPower(slots: Box, b: nat, k: nat): (r: Result<int>)
    requires k <= |slots|
    ensures r.Ok? <==> forall j :: 0 <= j < k ==> FocalLength(slots[j]).Ok?
  {
    if k == 0 then Ok(0)
    else
      var before :- BoxPower(slots, b, k - 1);
      var focal :- FocalLength(slots[k - 1]);
      Ok(before + (1 + b) * k * focal)
  }

  /** The focusing power of the first `n` boxes (15p2.py:64-71). */
  function Power(boxes: seq<Box>, n: nat): (r: Result<int>)
    requires n <= |boxes|
    ensures r.Ok? <==> forall b, j :: 0 <= b < n && 0 <= j < |boxes[b]| ==> FocalLength(boxes[b][j]).Ok?
  {
    if n == 0 then Ok(0)
    else
      var before :- Power(boxes, n - 1);
      var here :- BoxPower(boxes[n - 1], n - 1, |boxes[n - 1]|);
      Ok(before + here)
  }

  /** The nested loops that add up the focusing power (15p2.py:64-71). */
  method FocusingPower(boxes: seq<Box>) returns (r: Result<int>)
    ensures r == Power(boxes, |boxes|)
  {
    var total := 0;
    var b := 0;
    while b < |boxes|
      invariant b <= |boxes|
      invariant Power(boxes, b) == Ok(total)
    {
      var slots := boxes[b];
      var index := 0;
      var here := 0;
      while index < |slots|
        invariant index <= |slots|
        invariant BoxPower(slots, b, index) == Ok(here)
      {
        var focal := FocalLength(slots[index]);
        if focal.Err? {
          BoxPowerStops(slots, b, index + 1, |slots|);
          PowerStops(boxes, b + 1, |boxes|);
          return Err(focal.error);
        }
        here := here + (1 + b) * (1 + index) * focal.value;
        index := index + 1;
      }
      total := total + here;
      b := b + 1;
    }
    return Ok(total);
  }

  /** The first lens without a focal length decides the error. */
  lemma {:induction false} BoxPowerStops(slots: Box, b: nat, k: nat, n: nat)
    requires k <= n <= |slots| && BoxPower(slots, b, k).Err?
    ensures BoxPower(slots, b, n) == BoxPower(slots, b, k)
    decreases n
  {
    if n > k {
      BoxPowerStops(slots, b, k, n - 1);
    }
  }

  lemma {:induction false} PowerStops(boxes: seq<Box>, m: nat, n: nat)
    requires m <= n <= |boxes| && Power(boxes, m).Err?
    ensures Power(boxes, n) == Power(boxes, m)
    decreases n
  {
    if n > m {
      PowerStops(boxes, m, n - 1);
    }
  }

  /** Every lens contributes a non-negative amount. */
  lemma {:induction false} PowerNonNegative(boxes: seq<Box>, n: nat)
    requires n <= |boxes|
    ensures Power(boxes, n).Ok? ==> Power(boxes, n).value >= 0
  {
    if n > 0 {
      PowerNonNegative(boxes, n - 1);
      BoxPowerNonNegative(boxes[n - 1], n - 1, |boxes[n - 1]|);
    }
  }

  lemma {:induction false} BoxPowerNonNegative(slots: Box, b: nat, k: nat)
    requires k <= |slots|
    ensures BoxPower(slots, b, k).Ok? ==> BoxPower(slots, b, k).value >= 0
  {
    if k > 0 {
      BoxPowerNonNegative(slots, b, k - 1);
    }
  }

  /** `init_sequence` of 15p2.py (15p2.py:27-71): it fails on a malformed
      step, or on a stored lens whose focal length is not a digit. */
  function InitSequence2(input: string): (r: Result<int>)
    ensures Arrange(EmptyBoxes(), Steps(input)).Ok? ==> WellFormed(Arrange(EmptyBoxes(), Steps(input)).value)
    ensures r.Err? <==> (exists i :: 0 <= i < |Steps(input)| && Malformed(Steps(input)[i])) || Unfocused(Arrange(EmptyBoxes(), Steps(input)))
  {
    ArrangeWellFormed(EmptyBoxes(), Steps(input));
    var boxes :- Arrange(EmptyBoxes(), Steps(input));
    Power(boxes, BoxCount)
  }

  /** Arranged boxes holding a lens without a digit focal length. */
  predicate Unfocused(arranged: Result<seq<Box>>)
  {
    && arranged.Ok?
    && exists b, j :: 0 <= b < |arranged.value| && 0 <= j < |arranged.value[b]| && FocalLength(arranged.value[b][j]).Err?
  }
}
