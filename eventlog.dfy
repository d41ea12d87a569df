/** The bounded, append-only data log written by `saveData`: a fixed table of
    `MAX_RECORDS` data points filled in order, which refuses further records once
    full instead of overwriting old ones. */
module EventLog {
  import opened Clock

  const MAX_RECORDS: nat := 50

  /** The range of an `int16_t`. */
  type Int16 = x: int | -0x8000 <= x < 0x8000

  /** Storing an `int` into an `int16_t`: the one 16-bit value congruent to it
      modulo 2^16 (the two's-complement truncation). */
  function ToInt16(x: int): (r: Int16)
    ensures (r - x) % 0x1_0000 == 0
    ensures -0x8000 <= x < 0x8000 ==> r == x
  {
    (x + 0x8000) % 0x1_0000 - 0x8000
  }

  /** One `DataPoint` of the log: when it was saved and the count it recorded. */
  datatype DataPoint = DataPoint(timestamp: Millis, value: Int16)

  /** The content of the log after one save attempt: records already there are
      kept as they are, and the new point is added at the end when there is room. */
  function Save(records: seq<DataPoint>, p: DataPoint): (r: seq<DataPoint>)
    ensures records <= r
    ensures |r| == if |records| < MAX_RECORDS then |records| + 1 else |records|
    ensures |records| < MAX_RECORDS ==> r[|records|] == p
  {
    if |records| >= MAX_RECORDS then records else records + [p]
  }

  /** The log after saving each of `points` in turn. */
  function SaveAll(records: seq<DataPoint>, points: seq<DataPoint>): seq<DataPoint>
    decreases |points|
  {
    if points == [] then records else SaveAll(Save(records, points[0]), points[1..])
  }

  function Min(a: int, b: int): int
  {
    if a <= b then a else b
  }

  /** Capacity law: saving a sequence of points keeps the ones that fit, in order,
      and drops the rest; the log never grows past `MAX_RECORDS`. */
  lemma {:induction false} SaveAllKeepsPrefix(records: seq<DataPoint>, points: seq<DataPoint>)
    requires |records| <= MAX_RECORDS
    ensures SaveAll(records, points) == records + points[..Min(|points|, MAX_RECORDS - |records|)]
    decreases |points|
  {
    if points != [] {
      var next := Save(records, points[0]);
      SaveAllKeepsPrefix(next, points[1..]);
      if |records| < MAX_RECORDS {
        assert next == records + [points[0]];
        var k := Min(|points|, MAX_RECORDS - |records|);
        assert points[1..][..k - 1] == points[1..k];
        assert records + [points[0]] + points[1..k] == records + points[..k];
      } else {
        assert points[..0] == [];
      }
    }
  }

  /** From an empty log, the first 50 points are kept and every later save is
      refused: the 51st leaves the log at 50 records. */
  lemma FullLogRefuses(points: seq<DataPoint>, extra: DataPoint)
    requires |points| == MAX_RECORDS
    ensures SaveAll([], points) == points
    ensures Save(SaveAll([], points), extra) == points
  {
    SaveAllKeepsPrefix([], points);
    assert points[..MAX_RECORDS] == points;
  }
}
