/**
 * The crossed wires of d03: each wire is a list of moves such as `U7`,
 * traced into the points it visits from the central port at the origin;
 * the answers are the closest crossing by Manhattan distance and the
 * crossing reached in the fewest combined steps.
 *
 * Points are unbounded integers (the source's i32 coordinates are not
 * modelled as wrapping); hash sets are mathematical sets.
 */
module Wires {
  import opened Wrappers
  import opened Numbers
  import opened Decimal

  datatype Point = Point(x: int, y: int)

  const Origin: Point := Point(0, 0)

  /** `Point::distance`: the Manhattan distance from the origin. */
  function Distance(p: Point): (d: nat)
    ensures d == 0 <==> p == Origin
    ensures d >= Abs(p.x) && d >= Abs(p.y)
  {
    Abs(p.x) + Abs(p.y)
  }

  datatype Direction = Up | Down | Left | Right

  /** A parsed instruction: a direction and a signed count. */
  datatype Move = Move(dir: Direction, count: int)

  /** The three ways `trace_wire` returns `Err`. */
  datatype WireError =
    | EmptyInstruction          // an empty string
    | BadCount(instr: string)   // the text after the letter is not an i32
    | InvalidMovement(letter: char)

  const I32Min: int := -0x8000_0000
  const I32Max: int := 0x7fff_ffff

  /**
   * `str::parse::<i32>`: an optional `+` or `-`, then at least one ASCII
   * digit, and a value inside the i32 range.
   */
  function ParseI32(s: string): (r: Option<int>)
    ensures r.Some? ==> I32Min <= r.value <= I32Max
    ensures r.Some? ==> s != [] && (s[0] == '+' || s[0] == '-' || IsDigitChar(s[0]))
  {
    if s == [] then None
    else
      var digits := if s[0] == '+' || s[0] == '-' then s[1..] else s;
      if digits == [] || !AllDigits(digits) then None
      else
        var n: int := StringValue(digits);
        var v := if s[0] == '-' then -n else n;
        if I32Min <= v <= I32Max then Some(v) else None
  }

  /** The letters of the `match m`. */
  function Letter(c: char): (r: Option<Direction>)
    ensures r.Some? <==> c in "UDLR"
  {
    if c == 'U' then Some(Up)
    else if c == 'D' then Some(Down)
    else if c == 'L' then Some(Left)
    else if c == 'R' then Some(Right)
    else None
  }

  /**
   * One instruction, checked in the source's order: the first character
   * must exist, then the rest must parse as an i32, and only then is the
   * letter looked at.
   */
  function ParseMove(instr: string): (r: Result<Move, WireError>)
    ensures r == Err(EmptyInstruction) <==> instr == []
    ensures (r.Err? && r.error.BadCount?) <==> instr != [] && ParseI32(instr[1..]).None?
    ensures r.Err? && r.error.BadCount? ==> r.error.instr == instr
    ensures (r.Err? && r.error.InvalidMovement?) <==> instr != [] && ParseI32(instr[1..]).Some? && Letter(instr[0]).None?
    ensures r.Ok? ==> Letter(instr[0]) == Some(r.value.dir) && ParseI32(instr[1..]) == Some(r.value.count)
  {
    if instr == [] then Err(EmptyInstruction)
    else
      match ParseI32(instr[1..])
      case None => Err(BadCount(instr))
      case Some(c) =>
        match Letter(instr[0])
        case None => Err(InvalidMovement(instr[0]))
        case Some(d) => Ok(Move(d, c))
  }

  /** `k` units from `p` in direction `dir`: the four arms of the `match m`. */
  function Along(p: Point, dir: Direction, k: int): (q: Point)
    ensures Abs(q.x - p.x) + Abs(q.y - p.y) == Abs(k)
    ensures k == 0 ==> q == p
  {
    match dir
    case Up => Point(p.x, p.y + k)
    case Down => Point(p.x, p.y - k)
    case Left => Point(p.x - k, p.y)
    case Right => Point(p.x + k, p.y)
  }

  /** The points one move pushes: `for i in 0..c` is empty for a negative count. */
  function Segment(p: Point, m: Move): (ps: seq<Point>)
    ensures |ps| == Max(m.count, 0)
  {
    seq(Max(m.count, 0), i => Along(p, m.dir, i + 1))
  }

  /** The positions pushed so far and the cursor `(x, y)`. */
  datatype Trace = Trace(points: seq<Point>, cursor: Point)

  /** The state of `trace_wire` after the given instructions, or the first error. */
  function Walk(instrs: seq<string>): (r: Result<Trace, WireError>)
    ensures r.Ok? ==> |r.value.points| > 0 && r.value.points[0] == Origin
  {
    if instrs == [] then Ok(Trace([Origin], Origin))
    else
      var t :- Walk(instrs[..|instrs| - 1]);
      var m :- ParseMove(instrs[|instrs| - 1]);
      Ok(Trace(t.points + Segment(t.cursor, m), Along(t.cursor, m.dir, m.count)))
  }

  /** What `trace_wire` returns: the visited points, or the first instruction's error. */
  function TraceWireSpec(instrs: seq<string>): (r: Result<seq<Point>, WireError>)
    ensures r.Ok? <==> Moves(instrs).Ok?
    ensures r.Ok? ==> r.value != [] && r.value[0] == Origin
  {
    WalkShape(instrs);
    var t :- Walk(instrs);
    Ok(t.points)
  }

  /** `trace_wire`. */
  method TraceWire(instructions: seq<string>) returns (r: Result<seq<Point>, WireError>)
    ensures r == TraceWireSpec(instructions)
  {
    var positions: seq<Point> := [];
    var x := 0;
    var y := 0;
    positions := positions + [Point(x, y)];
    assert positions == [Origin];
    assert instructions[..0] == [];
    for k := 0 to |instructions|
      invariant Walk(instructions[..k]) == Ok(Trace(positions, Point(x, y)))
    {
      var instr := instructions[k];
      assert instructions[..k + 1][..k] == instructions[..k];
      if instr == [] {
        WalkErrorSticks(instructions, k + 1);
        return Err(EmptyInstruction);
      }
      var c := ParseI32(instr[1..]);
      if c.None? {
        WalkErrorSticks(instructions, k + 1);
        return Err(BadCount(instr));
      }
      var dir := Letter(instr[0]);
      if dir.None? {
        WalkErrorSticks(instructions, k + 1);
        return Err(InvalidMovement(instr[0]));
      }
      var start := Point(x, y);
      var m := Move(dir.value, c.value);
      assert ParseMove(instr) == Ok(m);
      positions := PushSegment(positions, start, m);
      var p := Along(start, m.dir, m.count);
      x, y := p.x, p.y;
    }
    assert instructions[..|instructions|] == instructions;
    return Ok(positions);
  }

  /** One arm of the `match m`: push the `count` points the move passes, nearest first. */
  method PushSegment(positions: seq<Point>, start: Point, m: Move) returns (ps: seq<Point>)
    ensures ps == positions + Segment(start, m)
  {
    ps := positions;
    for i := 0 to Max(m.count, 0)
      invariant ps == positions + Segment(start, m)[..i]
    {
      assert Segment(start, m)[..i + 1] == Segment(start, m)[..i] + [Along(start, m.dir, i + 1)];
      ps := ps + [Along(start, m.dir, i + 1)];
    }
    assert Segment(start, m)[..Max(m.count, 0)] == Segment(start, m);
  }

  // ---------------------------------------------------------------------
  // Facts about tracing
  // ---------------------------------------------------------------------

  /** Once a prefix of the instructions fails, the whole trace fails the same way. */
  lemma {:induction false} WalkErrorSticks(instrs: seq<string>, k: nat)
    requires k <= |instrs|
    requires Walk(instrs[..k]).Err?
    ensures Walk(instrs) == Walk(instrs[..k])
    decreases |instrs| - k
  {
    if k == |instrs| {
      assert instrs[..k] == instrs;
    } else {
      assert instrs[..k + 1][..k] == instrs[..k];
      WalkErrorSticks(instrs, k + 1);
    }
  }

  /** The error of a trace is the one of its first instruction that does not parse. */
  lemma {:induction false} FirstErrorWins(instrs: seq<string>, i: nat)
    requires i < |instrs|
    requires ParseMove(instrs[i]).Err?
    requires forall j :: 0 <= j < i ==> ParseMove(instrs[j]).Ok?
    ensures TraceWireSpec(instrs) == Err(ParseMove(instrs[i]).error)
  {
    var p := instrs[..i + 1];
    assert Walk(p) == Err(ParseMove(instrs[i]).error) by {
      ParsedPrefix(instrs, i);
      assert p[..|p| - 1] == instrs[..i] && p[|p| - 1] == instrs[i];
    }
    WalkErrorSticks(instrs, i + 1);
  }

  /** A prefix whose instructions all parse traces without error. */
  lemma {:induction false} ParsedPrefix(instrs: seq<string>, i: nat)
    requires i <= |instrs|
    requires forall j :: 0 <= j < i ==> ParseMove(instrs[j]).Ok?
    ensures Walk(instrs[..i]).Ok?
  {
    if i > 0 {
      var p := instrs[..i];
      ParsedPrefix(instrs, i - 1);
      assert p[..|p| - 1] == instrs[..i - 1] && ParseMove(p[|p| - 1]).Ok?;
    }
  }

  /** The sum of the counts, each counted as 0 when negative. */
  function StepTotal(ms: seq<Move>): nat {
    if ms == [] then 0 else StepTotal(ms[..|ms| - 1]) + Max(ms[|ms| - 1].count, 0)
  }

  /** Every instruction parsed, in order, or the first error. */
  function Moves(instrs: seq<string>): Result<seq<Move>, WireError> {
    if instrs == [] then Ok([])
    else
      var ms :- Moves(instrs[..|instrs| - 1]);
      var m :- ParseMove(instrs[|instrs| - 1]);
      Ok(ms + [m])
  }

  predicate NonNegative(ms: seq<Move>) {
    forall i :: 0 <= i < |ms| ==> ms[i].count >= 0
  }

  /** Two points one unit apart. */
  predicate Adjacent(p: Point, q: Point) {
    Abs(p.x - q.x) + Abs(p.y - q.y) == 1
  }

  /**
   * A trace succeeds exactly when every instruction parses; it starts at the
   * origin and holds one point per unit step, negative counts adding none.
   */
  lemma {:induction false} WalkShape(instrs: seq<string>)
    ensures Walk(instrs).Ok? <==> Moves(instrs).Ok?
    ensures Walk(instrs).Ok? ==> |Walk(instrs).value.points| == 1 + StepTotal(Moves(instrs).value)
    ensures Walk(instrs).Ok? ==> Walk(instrs).value.points[0] == Origin
  {
    if instrs != [] {
      var init := instrs[..|instrs| - 1];
      WalkShape(init);
      if Walk(instrs).Ok? {
        var ms := Moves(instrs).value;
        assert ms[..|ms| - 1] == Moves(init).value;
      }
    }
  }

  /** The direction of every unit step of the moves: each move's direction, `max(count, 0)` times. */
  function UnitSteps(ms: seq<Move>): (ds: seq<Direction>)
    ensures |ds| == StepTotal(ms)
  {
    if ms == [] then []
    else UnitSteps(ms[..|ms| - 1]) + seq(Max(ms[|ms| - 1].count, 0), _ => ms[|ms| - 1].dir)
  }

  /**
   * With no negative count, each point is one unit step from the one before,
   * in the direction of the move that pushed it, and the last point is the
   * cursor: each move ends displaced by its count.
   */
  lemma {:induction false} WalkUnitSteps(instrs: seq<string>)
    requires Moves(instrs).Ok? && NonNegative(Moves(instrs).value)
    ensures Walk(instrs).Ok?
    ensures var ps := Walk(instrs).value.points; var ds := UnitSteps(Moves(instrs).value);
      |ds| == |ps| - 1 && forall i :: 0 <= i < |ps| - 1 ==> ps[i + 1] == Along(ps[i], ds[i], 1)
    ensures var ps := Walk(instrs).value.points;
      forall i :: 0 <= i < |ps| - 1 ==> Adjacent(ps[i], ps[i + 1])
    ensures |Walk(instrs).value.points| > 0
    ensures Walk(instrs).value.points[|Walk(instrs).value.points| - 1] == Walk(instrs).value.cursor
  {
    WalkShape(instrs);
    if instrs != [] {
      var init := instrs[..|instrs| - 1];
      var ms := Moves(instrs).value;
      assert ms[..|ms| - 1] == Moves(init).value;
      assert NonNegative(Moves(init).value) by {
        forall i | 0 <= i < |Moves(init).value|
          ensures Moves(init).value[i].count >= 0
        {
          assert Moves(init).value[i] == ms[i];
        }
      }
      WalkUnitSteps(init);
      var t := Walk(init).value;
      var m := ParseMove(instrs[|instrs| - 1]).value;
      assert m == ms[|ms| - 1];
      assert UnitSteps(ms) == UnitSteps(Moves(init).value) + seq(m.count, _ => m.dir);
      SegmentSteps(t.points, t.cursor, m, UnitSteps(Moves(init).value));
    }
  }

  /** Appending one move's segment to a trace that ends at the cursor `c`. */
  lemma SegmentSteps(ps: seq<Point>, c: Point, m: Move, ds: seq<Direction>)
    requires |ps| > 0 && ps[|ps| - 1] == c && m.count >= 0
    requires |ds| == |ps| - 1
    requires forall i :: 0 <= i < |ps| - 1 ==> ps[i + 1] == Along(ps[i], ds[i], 1)
    ensures var qs := ps + Segment(c, m); var es := ds + seq(m.count, _ => m.dir);
      |es| == |qs| - 1
      && (forall i :: 0 <= i < |qs| - 1 ==> qs[i + 1] == Along(qs[i], es[i], 1))
      && (forall i :: 0 <= i < |qs| - 1 ==> Adjacent(qs[i], qs[i + 1]))
      && qs[|qs| - 1] == Along(c, m.dir, m.count)
  {
    var qs := ps + Segment(c, m);
    var es := ds + seq(m.count, _ => m.dir);
    forall i | 0 <= i < |qs| - 1
      ensures qs[i + 1] == Along(qs[i], es[i], 1)
    {
      if i >= |ps| - 1 {
        var k := i - |ps| + 1;
        assert qs[i + 1] == Along(c, m.dir, k + 1);
        assert qs[i] == Along(c, m.dir, k);
        assert es[i] == m.dir;
      } else {
        assert es[i] == ds[i];
      }
    }
    forall i | 0 <= i < |qs| - 1
      ensures Adjacent(qs[i], qs[i + 1])
    {
      assert qs[i + 1] == Along(qs[i], es[i], 1);
    }
  }

  // ---------------------------------------------------------------------
  // Crossings, distances and step counts
  // ---------------------------------------------------------------------

  /** The points lying on every wire. */
  function Crossings(ws: seq<seq<Point>>): (r: set<Point>)
    requires ws != []
    ensures forall p :: p in r <==> forall i :: 0 <= i < |ws| ==> p in ws[i]
  {
    set p | p in ws[0] && forall i :: 0 <= i < |ws| ==> p in ws[i]
  }

  /** The nonzero distances of a set of points. */
  function DistancesOf(s: set<Point>): (r: set<nat>)
    ensures 0 !in r
    ensures forall p :: p in s && p != Origin ==> Distance(p) in r
    ensures forall n :: n in r ==> exists p :: p in s && p != Origin && Distance(p) == n
  {
    NonZeroImage(s, Distance)
  }

  /** The nonzero values of `f` on `s`: a `map` followed by a `filter(|x| x != &0)`. */
  function NonZeroImage(s: set<Point>, f: Point -> nat): set<nat> {
    set p | p in s && f(p) != 0 :: f(p)
  }

  /** `w.iter().position(|x| x == &p)`. */
  function FirstIndex(w: seq<Point>, p: Point): (r: Option<nat>)
    ensures r.None? <==> p !in w
    ensures r.Some? ==> r.value < |w| && w[r.value] == p
    ensures r.Some? ==> forall j :: 0 <= j < r.value ==> w[j] != p
  {
    if w == [] then None
    else if w[0] == p then Some(0)
    else
      match FirstIndex(w[1..], p)
      case None => None
      case Some(i) => Some(i + 1)
  }

  /** The step count of `p`: the sum over the wires of its first index; `None` is the `Not found` panic. */
  function Steps(ws: seq<seq<Point>>, p: Point): (r: Option<nat>)
    ensures r.Some? ==> forall i :: 0 <= i < |ws| ==> p in ws[i]
  {
    if ws == [] then Some(0)
    else
      match FirstIndex(ws[0], p)
      case None => None
      case Some(i) =>
        match Steps(ws[1..], p)
        case None => None
        case Some(rest) => Some(i + rest)
  }

  /** The nonzero step counts of a set of points. */
  function StepsOf(ws: seq<seq<Point>>, s: set<Point>): (r: set<nat>)
    ensures 0 !in r
    ensures forall n :: n in r ==> exists p :: p in s && Steps(ws, p) == Some(n)
    ensures forall p :: p in s && Steps(ws, p).Some? && Steps(ws, p).value != 0 ==> Steps(ws, p).value in r
  {
    set p | p in s && Steps(ws, p).Some? && Steps(ws, p).value != 0 :: Steps(ws, p).value
  }

  predicate IsLeast(s: set<nat>, m: nat) {
    m in s && forall x :: x in s ==> m <= x
  }

  /** A finite set of naturals that is not empty has a least element. */
  lemma {:induction false} LeastExists(s: set<nat>)
    requires s != {}
    ensures exists m :: IsLeast(s, m)
    decreases |s|
  {
    var x :| x in s;
    if s - {x} == {} {
      assert s == {x};
      assert IsLeast(s, x);
    } else {
      LeastExists(s - {x});
      var m :| IsLeast(s - {x}, m);
      var least := if x < m then x else m;
      forall y | y in s
        ensures least <= y
      {
        if y != x {
          assert y in s - {x};
        }
      }
      assert IsLeast(s, least);
    }
  }

  /** The least element of a set, `None` for the empty set (`.min()` on an empty iterator). */
  ghost function Least(s: set<nat>): (r: Option<nat>)
    ensures r.None? <==> s == {}
    ensures r.Some? ==> IsLeast(s, r.value)
  {
    if s == {} then None
    else
      LeastExists(s);
      var m :| IsLeast(s, m);
      Some(m)
  }

  /** `.min()` on a vector. */
  function Minimum(s: seq<nat>): (r: Option<nat>)
    ensures r.None? <==> s == []
    ensures r.Some? ==> r.value in s && forall i :: 0 <= i < |s| ==> r.value <= s[i]
  {
    if s == [] then None
    else
      match Minimum(s[1..])
      case None => Some(s[0])
      case Some(m) => Some(Min(s[0], m))
  }

  /** The two answers of `main`. */
  datatype Answer = Answer(closest: nat, fewestSteps: nat)

  /** The panics of `main` after `get_input`. */
  datatype SolveError =
    | TraceFailed(error: WireError)  // `panic!("{:?}", err)` on a wire that does not trace
    | NoWires                        // `wires.get(0).unwrap()`
    | NoCrossing                     // `distances.iter().min().unwrap()`
    | NoSteps                        // `step_counts.iter().min().unwrap()`

  /** The answers of `main` from the traced wires, or the `unwrap` that panics. */
  ghost function AnswerSpec(ws: seq<seq<Point>>): (r: Result<Answer, SolveError>)
    ensures ws == [] <==> r == Err(NoWires)
    ensures r == Err(NoCrossing) <==> ws != [] && DistancesOf(Crossings(ws)) == {}
    ensures r.Ok? <==> ws != [] && DistancesOf(Crossings(ws)) != {} && StepsOf(ws, Crossings(ws)) != {}
    ensures r.Ok? ==> IsLeast(DistancesOf(Crossings(ws)), r.value.closest)
    ensures r.Ok? ==> IsLeast(StepsOf(ws, Crossings(ws)), r.value.fewestSteps)
  {
    if ws == [] then Err(NoWires)
    else
      match Least(DistancesOf(Crossings(ws)))
      case None => Err(NoCrossing)
      case Some(d) =>
        match Least(StepsOf(ws, Crossings(ws)))
        case None => Err(NoSteps)
        case Some(n) => Ok(Answer(d, n))
  }

  /** Every instruction list traced, in order, or the first error. */
  function TraceAll(input: seq<seq<string>>): (r: Result<seq<seq<Point>>, WireError>)
    ensures r.Ok? ==> |r.value| == |input|
    ensures r.Ok? ==> forall i :: 0 <= i < |input| ==> TraceWireSpec(input[i]) == Ok(r.value[i])
  {
    if input == [] then Ok([])
    else
      var ws :- TraceAll(input[..|input| - 1]);
      var w :- TraceWireSpec(input[|input| - 1]);
      Ok(ws + [w])
  }

  /** The loop that builds `ixn_pts`: the first wire's points, intersected with each other wire's. */
  method Intersect(ws: seq<seq<Point>>) returns (ixn: set<Point>)
    requires ws != []
    ensures ixn == Crossings(ws)
    ensures forall p :: p in ixn <==> forall i :: 0 <= i < |ws| ==> p in ws[i]
  {
    ixn := set p | p in ws[0];
    for i := 1 to |ws|
      invariant ixn == set p | p in ws[0] && forall j :: 0 <= j < i ==> p in ws[j]
    {
      var s := set p | p in ws[i];
      ixn := ixn * s;
    }
  }

  /** The rest of `main`, from the traced wires: part 1 from the distances, part 2 from the step counts. */
  method Answers(ws: seq<seq<Point>>) returns (r: Result<Answer, SolveError>)
    ensures r == AnswerSpec(ws)
  {
    if ws == [] {
      return Err(NoWires);
    }
    var ixn := Intersect(ws);
    var distances := NonZeroDistances(ixn);
    var p1 := Minimum(distances);
    MinimumIsLeast(distances, DistancesOf(ixn));
    if p1.None? {
      return Err(NoCrossing);
    }
    var stepCounts := NonZeroStepCounts(ws, ixn);
    var p2 := Minimum(stepCounts);
    MinimumIsLeast(stepCounts, StepsOf(ws, ixn));
    if p2.None? {
      return Err(NoSteps);
    }
    return Ok(Answer(p1.value, p2.value));
  }

  /** `.min()` of a vector is the least of the values it holds. */
  lemma MinimumIsLeast(s: seq<nat>, e: set<nat>)
    requires Elements(s) == e
    ensures Minimum(s) == Least(e)
  {
    if s != [] {
      var m := Minimum(s).value;
      assert m in e;
      assert IsLeast(e, m) by {
        forall x | x in e
          ensures m <= x
        {
          var i :| 0 <= i < |s| && s[i] == x;
        }
      }
      var n := Least(e).value;
      assert m <= n && n <= m;
    } else {
      assert e == {};
    }
  }

  /** `distances`: every nonzero distance of a crossing, in the set's iteration order. */
  method NonZeroDistances(ixn: set<Point>) returns (distances: seq<nat>)
    ensures Elements(distances) == DistancesOf(ixn)
  {
    distances := NonZeroValues(ixn, Distance);
  }

  /** The loop behind `map(f).filter(|x| x != &0).collect()` over a set, in the set's own order. */
  method NonZeroValues(s: set<Point>, f: Point -> nat) returns (values: seq<nat>)
    ensures Elements(values) == NonZeroImage(s, f)
  {
    values := [];
    var rest := s;
    ghost var done: set<Point> := {};
    while rest != {}
      invariant done + rest == s && done !! rest
      invariant Elements(values) == NonZeroImage(done, f)
      decreases |rest|
    {
      var p :| p in rest;
      ghost var prev := values;
      var v := f(p);
      if v != 0 {
        values := values + [v];
      }
      CollectStep(prev, done, p, f);
      MoveElement(done, rest, p);
      rest := rest - {p};
      done := done + {p};
    }
  }

  /** `step_counts`: the nonzero step count of every crossing, in the set's iteration order. */
  method NonZeroStepCounts(ws: seq<seq<Point>>, ixn: set<Point>) returns (stepCounts: seq<nat>)
    requires ws != [] && ixn == Crossings(ws)
    ensures Elements(stepCounts) == StepsOf(ws, ixn)
  {
    stepCounts := [];
    var rest := ixn;
    ghost var done: set<Point> := {};
    while rest != {}
      invariant done + rest == ixn && done !! rest
      invariant Elements(stepCounts) == StepsOf(ws, done)
      decreases |rest|
    {
      var p :| p in rest;
      StepsAdd(ws, done, p);
      StepsFound(ws, p);
      var steps := Steps(ws, p).value;
      if steps != 0 {
        ElementsSnoc(stepCounts, steps);
        stepCounts := stepCounts + [steps];
      }
      MoveElement(done, rest, p);
      rest := rest - {p};
      done := done + {p};
    }
  }

  /** Moving one element from `rest` to `done` keeps their disjoint union. */
  lemma MoveElement<T>(done: set<T>, rest: set<T>, p: T)
    requires done !! rest && p in rest
    ensures (done + {p}) + (rest - {p}) == done + rest
    ensures (done + {p}) !! (rest - {p})
    ensures |rest - {p}| < |rest|
  {
  }

  /** The set of the elements of a sequence. */
  function Elements(s: seq<nat>): set<nat> {
    set x | x in s
  }

  lemma ElementsSnoc(s: seq<nat>, x: nat)
    ensures Elements(s + [x]) == Elements(s) + {x}
  {
  }

  /** `main` after `get_input`: trace every wire, panicking on the first error, then answer. */
  method Solve(input: seq<seq<string>>) returns (r: Result<Answer, SolveError>)
    ensures TraceAll(input).Err? ==> r == Err(TraceFailed(TraceAll(input).error))
    ensures TraceAll(input).Ok? ==> r == AnswerSpec(TraceAll(input).value)
  {
    var ws: seq<seq<Point>> := [];
    for k := 0 to |input|
      invariant TraceAll(input[..k]) == Ok(ws)
    {
      assert input[..k + 1][..k] == input[..k];
      var t := TraceWire(input[k]);
      if t.Err? {
        TraceAllErrorSticks(input, k + 1);
        return Err(TraceFailed(t.error));
      }
      ws := ws + [t.value];
    }
    assert input[..|input|] == input;
    r := Answers(ws);
  }

  lemma {:induction false} TraceAllErrorSticks(input: seq<seq<string>>, k: nat)
    requires k <= |input|
    requires TraceAll(input[..k]).Err?
    ensures TraceAll(input) == TraceAll(input[..k])
    decreases |input| - k
  {
    if k == |input| {
      assert input[..k] == input;
    } else {
      assert input[..k + 1][..k] == input[..k];
      TraceAllErrorSticks(input, k + 1);
    }
  }

  /** One iteration of a loop that collects the nonzero values of `f`. */
  lemma CollectStep(prev: seq<nat>, done: set<Point>, p: Point, f: Point -> nat)
    requires Elements(prev) == NonZeroImage(done, f)
    ensures Elements(if f(p) != 0 then prev + [f(p)] else prev) == NonZeroImage(done + {p}, f)
  {
    ImageAdd(done, p, f);
    if f(p) != 0 {
      ElementsSnoc(prev, f(p));
    }
  }

  lemma ImageAdd(s: set<Point>, p: Point, f: Point -> nat)
    ensures f(p) != 0 ==> NonZeroImage(s + {p}, f) == NonZeroImage(s, f) + {f(p)}
    ensures f(p) == 0 ==> NonZeroImage(s + {p}, f) == NonZeroImage(s, f)
  {
  }

  lemma StepsAdd(ws: seq<seq<Point>>, s: set<Point>, p: Point)
    ensures StepsOf(ws, s + {p}) == StepsOf(ws, s)
      + (if Steps(ws, p).Some? && Steps(ws, p).value != 0 then {Steps(ws, p).value} else {})
  {
  }

  /** A point on every wire is found on each: the `Not found` panic cannot happen for a crossing. */
  lemma {:induction false} StepsFound(ws: seq<seq<Point>>, p: Point)
    requires forall i :: 0 <= i < |ws| ==> p in ws[i]
    ensures Steps(ws, p).Some?
  {
    if ws != [] {
      assert forall i :: 0 <= i < |ws[1..]| ==> ws[1..][i] == ws[i + 1];
      StepsFound(ws[1..], p);
    }
  }

  /**
   * For wires that all start at the origin, the origin is a crossing, and it
   * is the only point whose step count or distance is zero: this is what the
   * two `!= 0` filters remove.
   */
  lemma {:induction false} ZeroStepsOnlyAtOrigin(ws: seq<seq<Point>>, p: Point)
    requires forall i :: 0 <= i < |ws| ==> |ws[i]| > 0 && ws[i][0] == Origin
    requires forall i :: 0 <= i < |ws| ==> p in ws[i]
    ensures Steps(ws, p).Some?
    ensures Steps(ws, p).value == 0 <==> (ws == [] || p == Origin)
  {
    StepsFound(ws, p);
    if ws != [] {
      assert forall i :: 0 <= i < |ws[1..]| ==> ws[1..][i] == ws[i + 1];
      ZeroStepsOnlyAtOrigin(ws[1..], p);
    }
  }

  /** Traced wires all start at the origin, so the origin is a crossing. */
  lemma {:induction false} TracedStartAtOrigin(input: seq<seq<string>>)
    requires TraceAll(input).Ok?
    ensures var ws := TraceAll(input).value;
      |ws| == |input| && forall i :: 0 <= i < |ws| ==> |ws[i]| > 0 && ws[i][0] == Origin
  {
    if input != [] {
      TracedStartAtOrigin(input[..|input| - 1]);
      WalkShape(input[|input| - 1]);
    }
  }

  // ---------------------------------------------------------------------
  // Parsing counts
  // ---------------------------------------------------------------------

  /** The decimal text of an integer, with a `-` when negative. */
  function Show(n: int): string {
    if n < 0 then "-" + DecimalString(-n) else DecimalString(n)
  }

  /** Every i32 reads back from its decimal text, so every count round-trips. */
  lemma ParseShow(n: int)
    requires I32Min <= n <= I32Max
    ensures ParseI32(Show(n)) == Some(n)
  {
    if n < 0 {
      var d := DecimalString(-n);
      assert Show(n) == "-" + d;
      assert ("-" + d)[0] == '-' && ("-" + d)[1..] == d;
      assert StringValue(d) == -n by {
        DecimalStringValue(-n);
      }
    } else {
      var d := DecimalString(n);
      assert Show(n) == d;
      assert IsDigitChar(d[0]);
      assert StringValue(d) == n by {
        DecimalStringValue(n);
      }
    }
  }

  /** A `+` sign is accepted; a bare sign or a letter is not. */
  lemma ParseExamples()
    ensures ParseI32("+7") == Some(7)
    ensures ParseI32("-") == None && ParseI32("") == None && ParseI32("7a") == None
    ensures ParseMove("X7") == Err(InvalidMovement('X'))
    ensures ParseMove("Xa") == Err(BadCount("Xa"))
  {
    assert "+7"[1..] == "7";
    assert StringValue("7") == 7;
    assert !IsDigitChar('a');
    assert "7a"[1] == 'a';
    assert "Xa"[1..] == "a";
    assert "X7"[1..] == "7";
  }

  /** One past `i32::MAX` does not parse, while `i32::MIN` with its sign does. */
  lemma ParseRange()
    ensures ParseI32("2147483648") == None && ParseI32("-2147483648") == Some(I32Min)
  {
    var big := "2147483648";
    assert StringValue(big) == 2147483648 by {
      DigitsValue();
    }
    assert "-2147483648"[1..] == big;
  }

  /** The value of the digits of `i32::MAX + 1`, one digit at a time. */
  lemma DigitsValue()
    ensures StringValue("2147483648") == 2147483648
  {
    assert StringValue("2") == 2;
    assert "21"[..1] == "2";
    assert StringValue("21") == 21;
    assert "214"[..2] == "21";
    assert StringValue("214") == 214;
    assert "2147"[..3] == "214";
    assert StringValue("2147") == 2147;
    assert "21474"[..4] == "2147";
    assert StringValue("21474") == 21474;
    assert "214748"[..5] == "21474";
    assert StringValue("214748") == 214748;
    assert "2147483"[..6] == "214748";
    assert StringValue("2147483") == 2147483;
    assert "21474836"[..7] == "2147483";
    assert StringValue("21474836") == 21474836;
    assert "214748364"[..8] == "21474836";
    assert StringValue("214748364") == 214748364;
    assert "2147483648"[..9] == "214748364";
  }
}
