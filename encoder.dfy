/** The quadrature decoder run on every edge of either encoder line: it packs the
    two line levels into a 2-bit phase, joins it with the previous phase into a
    4-bit transition code and moves the raw count by a fixed table, never below 0. */
module Encoder {

  /** A 2-bit phase: line A in bit 1, line B in bit 0. */
  type Phase = c: int | 0 <= c < 4

  /** A 4-bit transition: the previous phase in bits 3..2, the new one in bits 1..0. */
  type TransitionCode = s: int | 0 <= s < 16

  /** The decoder's globals: `lastEncoded` and the raw count `encoderCounter`. */
  datatype Quadrature = Quadrature(lastEncoded: Phase, counter: int)

  /** A sample of both lines taken at an edge (true = HIGH). */
  datatype Edge = Edge(a: bool, b: bool)

  function Level(high: bool): int
  {
    if high then 1 else 0
  }

  /** The level of line A recorded in a phase. */
  predicate LineA(code: Phase)
  {
    code >= 2
  }

  /** The level of line B recorded in a phase. */
  predicate LineB(code: Phase)
  {
    code % 2 == 1
  }

  /** `(MSB << 1) | LSB`; the phase records both lines and nothing else. */
  function Encode(a: bool, b: bool): (code: Phase)
    ensures LineA(code) == a && LineB(code) == b
  {
    2 * Level(a) + Level(b)
  }

  /** `(lastEncoded << 2) | encoded`; the two phases can be read back from it. */
  function Join(previous: Phase, current: Phase): (sum: TransitionCode)
    ensures sum / 4 == previous && sum % 4 == current
  {
    4 * previous + current
  }

  /** The transitions that count up: 1101, 0100, 0010, 1011. */
  predicate IsIncrement(sum: TransitionCode)
  {
    sum == 0xD || sum == 0x4 || sum == 0x2 || sum == 0xB
  }

  /** The transitions that count down: 1110, 0111, 0001, 1000. */
  predicate IsDecrement(sum: TransitionCode)
  {
    sum == 0xE || sum == 0x7 || sum == 0x1 || sum == 0x8
  }

  /** Reference definition: the place of a phase on the Gray-code cycle that the
      lines go through when the knob turns, 00 -> 10 -> 11 -> 01 -> 00. */
  function CyclePosition(code: Phase): Phase
  {
    if code == 0 then 0 else if code == 2 then 1 else if code == 3 then 2 else 3
  }

  /** How many places forward along the cycle a transition moves (3 is one place back). */
  function CycleSteps(previous: Phase, current: Phase): int
  {
    (CyclePosition(current) - CyclePosition(previous)) % 4
  }

  /** The two tables are exactly the single steps forward and backward along the
      Gray-code cycle; repeats and two-place jumps are in neither. */
  lemma TableFollowsCycle(previous: Phase, current: Phase)
    ensures IsIncrement(Join(previous, current)) <==> CycleSteps(previous, current) == 1
    ensures IsDecrement(Join(previous, current)) <==> CycleSteps(previous, current) == 3
  {
  }

  /** `updateEncoder`: one edge. The count moves one place up for a forward step on
      the cycle, one place down for a backward step unless it is already 0, and
      stays put otherwise; the new phase is remembered. */
  function Step(q: Quadrature, a: bool, b: bool): (r: Quadrature)
    ensures r.lastEncoded == Encode(a, b)
    ensures r.counter - q.counter ==
              if CycleSteps(q.lastEncoded, Encode(a, b)) == 1 then 1
              else if CycleSteps(q.lastEncoded, Encode(a, b)) == 3 && q.counter > 0 then -1
              else 0
    ensures q.counter >= 0 ==> r.counter >= 0
  {
    var encoded := Encode(a, b);
    var sum := Join(q.lastEncoded, encoded);
    TableFollowsCycle(q.lastEncoded, encoded);
    var up := if IsIncrement(sum) then q.counter + 1 else q.counter;
    var down := if IsDecrement(sum) && up > 0 then up - 1 else up;
    Quadrature(encoded, down)
  }

  /** The decoder state after a sequence of edges. */
  function Run(q: Quadrature, edges: seq<Edge>): Quadrature
    decreases |edges|
  {
    if edges == [] then q else Run(Step(q, edges[0].a, edges[0].b), edges[1..])
  }

  /** The raw count never goes negative, whatever the edges, and rises by at most
      one per edge. */
  lemma {:induction false} RunNeverNegative(q: Quadrature, edges: seq<Edge>)
    requires q.counter >= 0
    ensures 0 <= Run(q, edges).counter <= q.counter + |edges|
    decreases |edges|
  {
    if edges != [] {
      RunNeverNegative(Step(q, edges[0].a, edges[0].b), edges[1..]);
    }
  }

  /** Running two sequences of edges one after the other is running their concatenation. */
  lemma {:induction false} RunAppend(q: Quadrature, first: seq<Edge>, second: seq<Edge>)
    ensures Run(q, first + second) == Run(Run(q, first), second)
    decreases |first|
  {
    if first == [] {
      assert first + second == second;
    } else {
      assert (first + second)[0] == first[0];
      assert (first + second)[1..] == first[1..] + second;
      RunAppend(Step(q, first[0].a, first[0].b), first[1..], second);
    }
  }

  /** One backward step along the cycle. */
  lemma StepBack(q: Quadrature, a: bool, b: bool)
    requires CycleSteps(q.lastEncoded, Encode(a, b)) == 3
    ensures Step(q, a, b) == Quadrature(Encode(a, b), if q.counter > 0 then q.counter - 1 else q.counter)
  {
  }

  /** Two edges in a row. */
  lemma RunTwo(q: Quadrature, x: Edge, y: Edge)
    ensures Run(q, [x, y]) == Step(Step(q, x.a, x.b), y.a, y.b)
  {
    var q1 := Step(q, x.a, x.b);
    assert [x, y][0] == x && [x, y][1..] == [y];
    assert Run(q, [x, y]) == Run(q1, [y]);
    assert [y][0] == y && [y][1..] == [];
    assert Run(q1, [y]) == Run(Step(q1, y.a, y.b), []);
  }

  /** The four edges of one full forward turn of the line pattern, starting and
      ending at phase 00. */
  const ForwardTurn: seq<Edge> := [Edge(true, false), Edge(true, true), Edge(false, true), Edge(false, false)]

  /** The same turn backwards. */
  const BackwardTurn: seq<Edge> := [Edge(false, true), Edge(true, true), Edge(true, false), Edge(false, false)]

  /** A full forward turn from phase 00 adds four to the count. */
  lemma ForwardTurnAddsFour(c: int)
    ensures Run(Quadrature(0, c), ForwardTurn) == Quadrature(0, c + 4)
  {
    assert ForwardTurn == [Edge(true, false), Edge(true, true)] + [Edge(false, true), Edge(false, false)];
    RunAppend(Quadrature(0, c), [Edge(true, false), Edge(true, true)], [Edge(false, true), Edge(false, false)]);
    RunTwo(Quadrature(0, c), Edge(true, false), Edge(true, true));
    RunTwo(Quadrature(3, c + 2), Edge(false, true), Edge(false, false));
  }

  /** A full backward turn from phase 00 takes four off the count, but stops at 0. */
  lemma BackwardTurnFloorsAtZero(c: int)
    requires c >= 0
    ensures Run(Quadrature(0, c), BackwardTurn) == Quadrature(0, if c >= 4 then c - 4 else 0)
  {
    var mid := Quadrature(3, if c >= 2 then c - 2 else 0);
    assert BackwardTurn == [Edge(false, true), Edge(true, true)] + [Edge(true, false), Edge(false, false)];
    RunAppend(Quadrature(0, c), [Edge(false, true), Edge(true, true)], [Edge(true, false), Edge(false, false)]);
    RunTwo(Quadrature(0, c), Edge(false, true), Edge(true, true));
    StepBack(Quadrature(0, c), false, true);
    StepBack(Step(Quadrature(0, c), false, true), true, true);
    StepBack(mid, true, false);
    StepBack(Step(mid, true, false), false, false);
    RunTwo(mid, Edge(true, false), Edge(false, false));
  }
}
