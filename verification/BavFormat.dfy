/** The BAV video format: frames as run lengths of the rows that changed. The functions here say
    what a file means; a parser takes the bytes not read yet and returns what is left of them.
  */
module BavFormat {
  import opened Bytes


  /** Whether each pixel is white. */
  type Row = seq<bool>

  datatype BavError = NotBav | Truncated | VarintTooLong | NoSuchRow | RunsDoNotFill | LengthMismatch

  datatype Parsed<T> = Ok(value: T, rest: seq<Byte>) | Err(error: BavError)

  // ---- varints ---------------------------------------------------------------------------------

  function Varint(v: nat): (r: seq<Byte>)
    ensures |r| >= 1
  {
    if v < 128 then [v as Byte] else [(v % 128 + 128) as Byte] + Varint(v / 128)
  }

  /** `n` bytes of the varint are already read; a seventh is refused. */
  function ReadVarint(s: seq<Byte>, n: nat): (r: Parsed<nat>)
    ensures r.Ok? ==> |r.rest| < |s|
    decreases |s|
  {
    if s == [] then Err(Truncated)
    else if s[0] < 128 then Ok(s[0] as nat, s[1..])
    else if n >= 5 then Err(VarintTooLong)
    else
      match ReadVarint(s[1..], n + 1)
      case Ok(v, rest) => Ok(s[0] as nat - 128 + 128 * v, rest)
      case Err(e) => Err(e)
  }

  function Pow128(n: nat): (p: nat)
    ensures p > 0
  {
    if n == 0 then 1 else 128 * Pow128(n - 1)
  }

  lemma {:induction false} VarintReads(v: nat, n: nat, rest: seq<Byte>)
    requires n < 6 && v < Pow128(6 - n)
    ensures ReadVarint(Varint(v) + rest, n) == Ok(v, rest)
  {
    var s := Varint(v) + rest;
    if v < 128 {
      assert s[1..] == rest;
    } else {
      assert s[1..] == Varint(v / 128) + rest;
      assert n < 5 by {
        assert Pow128(1) == 128;
      }
      VarintReads(v / 128, n + 1, rest);
    }
  }

  lemma {:induction false} VarintSize(v: nat, n: nat)
    requires n > 0 && v < Pow128(n)
    ensures |Varint(v)| <= n
  {
    if v >= 128 {
      assert n > 1 by {
        assert Pow128(1) == 128;
      }
      VarintSize(v / 128, n - 1);
    }
  }

  // ---- rows --------------------------------------------------------------------------------------

  /** How many bits at the start are `colour`. */
  function Leading(row: Row, colour: bool): (n: nat)
    ensures n <= |row|
    ensures forall i :: 0 <= i < n ==> row[i] == colour
    ensures n < |row| ==> row[n] != colour
  {
    if row == [] || row[0] != colour then 0 else 1 + Leading(row[1..], colour)
  }

  /** The lengths of the maximal runs of equal bits. */
  function MaximalRuns(row: Row): (runs: seq<nat>)
    ensures forall i :: 0 <= i < |runs| ==> 0 < runs[i] <= |row|
    ensures |runs| <= |row|
    decreases |row|
  {
    if row == [] then [] else
      var n := Leading(row, row[0]);
      assert n > 0;
      [n] + MaximalRuns(row[n..])
  }

  /** `row_runs`: they alternate, starting with black. */
  function RowRuns(row: Row): seq<nat> {
    if row != [] && row[0] then [0] + MaximalRuns(row) else MaximalRuns(row)
  }

  function Bits(colour: bool, n: nat): (r: Row)
    ensures |r| == n && forall i :: 0 <= i < n ==> r[i] == colour
  {
    if n == 0 then [] else [colour] + Bits(colour, n - 1)
  }

  function Min(a: nat, b: nat): nat {
    if a <= b then a else b
  }

  /** Assigning a run to a slice of the row: past the end it makes the row longer. */
  function Painted(row: Row, x: nat, run: nat, colour: bool): Row {
    row[..Min(x, |row|)] + Bits(colour, run) + row[Min(x + run, |row|)..]
  }

  /** Paint `n` runs from column `x` on. */
  function ReadRuns(s: seq<Byte>, n: nat, row: Row, x: nat, colour: bool): (r: Parsed<(Row, nat)>)
    ensures r.Ok? ==> |r.rest| <= |s|
    decreases n
  {
    if n == 0 then Ok((row, x), s) else
      match ReadVarint(s, 0)
      case Ok(run, rest) => ReadRuns(rest, n - 1, Painted(row, x, run, colour), x + run, !colour)
      case Err(e) => Err(e)
  }

  function Varints(runs: seq<nat>): seq<Byte> {
    if runs == [] then [] else Varint(runs[0]) + Varints(runs[1..])
  }

  /** Reading the first of some runs. */
  lemma ReadRunsStep(run: nat, runs: seq<nat>, rest: seq<Byte>, row: Row, x: nat, colour: bool)
    requires run < Pow128(6)
    ensures ReadRuns(Varints([run] + runs) + rest, |[run] + runs|, row, x, colour) ==
            ReadRuns(Varints(runs) + rest, |runs|, Painted(row, x, run, colour), x + run, !colour)
  {
    var all := [run] + runs;
    assert all[0] == run && all[1..] == runs;
    assert Varints(all) + rest == Varint(run) + (Varints(runs) + rest);
    VarintReads(run, 0, Varints(runs) + rest);
  }

  lemma PaintNext(head: Row, was: Row, row: Row, colour: bool)
    requires |was| == |row| && row != [] && row[0] == colour
    ensures var n := Leading(row, colour);
      && Painted(head + was, |head|, n, colour) == (head + row[..n]) + was[n..]
      && (head + row[..n]) + row[n..] == head + row && |head + row[..n]| == |head| + n
  {
    var n := Leading(row, colour);
    assert row[..n] == Bits(colour, n);
    assert (head + was)[..|head|] == head && (head + was)[|head| + n..] == was[n..];
  }

  /** Reading these runs turns `row` into `result`, leaving off at column `end`. */
  ghost predicate Paints(runs: seq<nat>, row: Row, x: nat, colour: bool, result: Row, end: nat) {
    forall rest: seq<Byte> {:trigger Varints(runs) + rest} ::
      ReadRuns(Varints(runs) + rest, |runs|, row, x, colour) == Ok((result, end), rest)
  }

  lemma PaintsStep(run: nat, runs: seq<nat>, row: Row, x: nat, colour: bool, result: Row, end: nat)
    requires run < Pow128(6) && Paints(runs, Painted(row, x, run, colour), x + run, !colour, result, end)
    ensures Paints([run] + runs, row, x, colour, result, end)
  {
    forall rest: seq<Byte>
      ensures ReadRuns(Varints([run] + runs) + rest, |[run] + runs|, row, x, colour) == Ok((result, end), rest)
    {
      ReadRunsStep(run, runs, rest, row, x, colour);
    }
  }

  /** Painting the maximal runs of `row` from where `row` starts paints `row`. */
  lemma {:induction false} RunsPaint(row: Row, head: Row, was: Row, colour: bool, before: Row, after: Row, x: nat,
                                     end: nat)
    requires |was| == |row| < Pow128(6) && (row == [] || row[0] == colour)
    requires before == head + was && after == head + row && x == |head| && end == |after|
    ensures Paints(MaximalRuns(row), before, x, colour, after, end)
    decreases |row|
  {
    if row == [] {
      NoRuns(before, x, colour);
      assert before == after;
    } else {
      var n := Leading(row, colour);
      PaintNext(head, was, row, colour);
      RunsPaint(row[n..], head + row[..n], was[n..], !colour, Painted(before, x, n, colour), after, x + n, end);
      PaintsStep(n, MaximalRuns(row[n..]), before, x, colour, after, end);
    }
  }

  lemma NoRuns(row: Row, x: nat, colour: bool)
    ensures Paints([], row, x, colour, row, x)
  {
    forall rest: seq<Byte>
      ensures ReadRuns(Varints([]) + rest, 0, row, x, colour) == Ok((row, x), rest)
    {
      assert Varints([]) + rest == rest;
    }
  }

  /** ... and so do the runs of the format, which start with black. */
  lemma RowRunsPaint(row: Row, was: Row)
    requires |was| == |row| < Pow128(6)
    ensures Paints(RowRuns(row), was, 0, false, row, |row|)
  {
    if row != [] && row[0] {
      RunsPaint(row, [], was, !false, Painted(was, 0, 0, false), row, 0 + 0, |row|);
      PaintsStep(0, MaximalRuns(row), was, 0, false, row, |row|);
    } else {
      RunsPaint(row, [], was, false, was, row, 0, |row|);
    }
  }

  // ---- frames --------------------------------------------------------------------------------------

  function RowBytes(row: Row): seq<Byte> {
    Varint(|RowRuns(row)|) + Varints(RowRuns(row))
  }

  /** The changed rows from row `y` on; rows before `from` are already accounted for. */
  function Body(prev: seq<Row>, rows: seq<Row>, y: nat, from: nat): seq<Byte>
    requires |prev| == |rows| && from <= y <= |rows|
    decreases |rows| - y
  {
    if y == |rows| then []
    else if rows[y] == prev[y] then Body(prev, rows, y + 1, from)
    else Varint(y - from) + RowBytes(rows[y]) + Body(prev, rows, y + 1, y + 1)
  }

  function Changed(prev: seq<Row>, rows: seq<Row>, y: nat): (n: nat)
    requires |prev| == |rows| && y <= |rows|
    ensures n <= |rows| - y
    decreases |rows| - y
  {
    if y == |rows| then 0 else (if rows[y] == prev[y] then 0 else 1) + Changed(prev, rows, y + 1)
  }

  function Payload(prev: seq<Row>, rows: seq<Row>): seq<Byte>
    requires |prev| == |rows|
  {
    Varint(Changed(prev, rows, 0)) + Body(prev, rows, 0, 0)
  }

  function FrameBytes(prev: seq<Row>, rows: seq<Row>): seq<Byte>
    requires |prev| == |rows|
  {
    Varint(|Payload(prev, rows)|) + Payload(prev, rows)
  }

  /** One changed row, `y` rows down: its run count and runs, which must fill it. */
  function ReadRow(s: seq<Byte>, y: nat, screen: seq<Row>, width: nat): (r: Parsed<seq<Row>>)
    ensures r.Ok? ==> |r.rest| < |s| && |r.value| == |screen|
  {
    match ReadVarint(s, 0)
    case Err(e) => Err(e)
    case Ok(runs, rest) =>
      if y >= |screen| then
        if runs == 0 then (if width == 0 then Ok(screen, rest) else Err(RunsDoNotFill))
        else (match ReadVarint(rest, 0) case Ok(_, _) => Err(NoSuchRow) case Err(e) => Err(e))
      else
        match ReadRuns(rest, runs, screen[y], 0, false)
        case Err(e) => Err(e)
        case Ok(painted, left) => if painted.1 == width then Ok(screen[y := painted.0], left) else Err(RunsDoNotFill)
  }

  function ReadRows(s: seq<Byte>, n: nat, from: nat, screen: seq<Row>, width: nat): (r: Parsed<seq<Row>>)
    ensures r.Ok? ==> |r.rest| <= |s| && |r.value| == |screen|
    decreases n
  {
    if n == 0 then Ok(screen, s) else
      match ReadChanged(s, from, screen, width)
      case Err(e) => Err(e)
      case Ok(next, left) => ReadRows(left, n - 1, next.1, next.0, width)
  }

  /** A changed row: the rows skipped since `from`, and the row. */
  function ReadChanged(s: seq<Byte>, from: nat, screen: seq<Row>, width: nat): (r: Parsed<(seq<Row>, nat)>)
    ensures r.Ok? ==> |r.rest| < |s| && |r.value.0| == |screen|
  {
    match ReadVarint(s, 0)
    case Err(e) => Err(e)
    case Ok(gap, rest) =>
      match ReadRow(rest, from + gap, screen, width)
      case Err(e) => Err(e)
      case Ok(next, left) => Ok((next, from + gap + 1), left)
  }

  /** A frame: its length must be what its rows take. */
  function ReadFrame(s: seq<Byte>, screen: seq<Row>, width: nat): (r: Parsed<seq<Row>>)
    ensures r.Ok? ==> |r.rest| < |s| && |r.value| == |screen|
  {
    match ReadVarint(s, 0)
    case Err(e) => Err(e)
    case Ok(length, rest) =>
      match ReadVarint(rest, 0)
      case Err(e) => Err(e)
      case Ok(changed, body) =>
        match ReadRows(body, changed, 0, screen, width)
        case Err(e) => Err(e)
        case Ok(next, left) => if |rest| - |left| == length then Ok(next, left) else Err(LengthMismatch)
  }

  function ReadFrames(s: seq<Byte>, n: nat, screen: seq<Row>, width: nat): (r: Parsed<seq<seq<Row>>>)
    decreases n
  {
    if n == 0 then Ok([], s) else
      match ReadFrame(s, screen, width)
      case Err(e) => Err(e)
      case Ok(next, rest) =>
        match ReadFrames(rest, n - 1, next, width)
        case Err(e) => Err(e)
        case Ok(frames, left) => Ok([next] + frames, left)
  }

  // ---- sizes ------------------------------------------------------------------------------------------

  const LIMIT16: nat := 65536

  /** Rows of a 16-bit width. */
  ghost predicate Sized(rows: seq<Row>, width: nat) {
    forall i :: 0 <= i < |rows| ==> |rows[i]| == width
  }

  /** 16-bit values take at most three bytes. */
  lemma Short(v: nat)
    requires v <= LIMIT16
    ensures |Varint(v)| <= 3 && v < Pow128(6)
  {
    assert Pow128(3) == 2097152;
    VarintSize(v, 3);
    assert Pow128(6) == 2097152 * Pow128(3);
  }

  lemma {:induction false} VarintsSize(runs: seq<nat>)
    requires forall i :: 0 <= i < |runs| ==> runs[i] < LIMIT16
    ensures |Varints(runs)| <= 3 * |runs|
  {
    if runs != [] {
      Short(runs[0]);
      VarintsSize(runs[1..]);
    }
  }

  lemma RowBytesSize(row: Row)
    requires |row| < LIMIT16
    ensures |RowBytes(row)| <= 3 + 3 * LIMIT16 && |RowRuns(row)| <= LIMIT16
  {
    VarintsSize(RowRuns(row));
    Short(|RowRuns(row)|);
  }

  const ROW_BYTES: nat := 6 + 3 * LIMIT16

  lemma {:induction false} BodySize(prev: seq<Row>, rows: seq<Row>, y: nat, from: nat, width: nat)
    requires |prev| == |rows| < LIMIT16 && from <= y <= |rows| && width < LIMIT16 && Sized(rows, width)
    ensures |Body(prev, rows, y, from)| <= ROW_BYTES * (|rows| - y)
    decreases |rows| - y
  {
    if y < |rows| {
      var next := if rows[y] == prev[y] then from else y + 1;
      BodySize(prev, rows, y + 1, next, width);
      var head := BodyHead(prev, rows, y, from, next);
      OneRowMore(head, |Body(prev, rows, y + 1, next)|, |rows| - y);
    }
  }

  /** What one row adds to the body. */
  lemma BodyHead(prev: seq<Row>, rows: seq<Row>, y: nat, from: nat, next: nat) returns (head: nat)
    requires |prev| == |rows| < LIMIT16 && from <= y < |rows| && |rows[y]| < LIMIT16
    requires next == if rows[y] == prev[y] then from else y + 1
    ensures head <= ROW_BYTES && |Body(prev, rows, y, from)| == head + |Body(prev, rows, y + 1, next)|
  {
    if rows[y] == prev[y] {
      head := 0;
    } else {
      BodyParts(prev, rows, y, from, y - from);
      head := |Varint(y - from)| + |RowBytes(rows[y])|;
    }
  }

  lemma OneRowMore(row: nat, body: nat, n: nat)
    requires n > 0 && row <= ROW_BYTES && body <= ROW_BYTES * (n - 1)
    ensures row + body <= ROW_BYTES * n
  {
  }

  lemma BodyParts(prev: seq<Row>, rows: seq<Row>, y: nat, from: nat, gap: nat)
    requires |prev| == |rows| < LIMIT16 && from <= y < |rows| && gap == y - from && rows[y] != prev[y]
    requires |rows[y]| < LIMIT16
    ensures |Body(prev, rows, y, from)| == |Varint(gap)| + |RowBytes(rows[y])| + |Body(prev, rows, y + 1, y + 1)|
    ensures |Varint(gap)| <= 3 && |RowBytes(rows[y])| <= 3 + 3 * LIMIT16
  {
    Short(gap);
    RowBytesSize(rows[y]);
  }

  /** No varint of a frame comes near the six-byte limit. */
  lemma PayloadSize(prev: seq<Row>, rows: seq<Row>, width: nat)
    requires |prev| == |rows| < LIMIT16 && width < LIMIT16 && Sized(rows, width)
    ensures |Payload(prev, rows)| < Pow128(5) < Pow128(6)
  {
    BodySize(prev, rows, 0, 0, width);
    Short(Changed(prev, rows, 0));
    BigEnough(|Varint(Changed(prev, rows, 0))|, |Body(prev, rows, 0, 0)|, |rows|);
  }

  lemma BigEnough(count: nat, body: nat, n: nat)
    requires count <= 3 && body <= ROW_BYTES * n && n < LIMIT16
    ensures count + body < Pow128(5) < Pow128(6)
  {
    assert Pow128(3) == 2097152;
    assert Pow128(5) == 16384 * Pow128(3);
    assert ROW_BYTES * n <= ROW_BYTES * LIMIT16;
  }

  // ---- reading back ------------------------------------------------------------------------------------

  lemma RowReads(row: Row, y: nat, screen: seq<Row>, width: nat, rest: seq<Byte>, next: seq<Row>)
    requires y < |screen| && |row| == width == |screen[y]| < LIMIT16 && next == screen[y := row]
    ensures ReadRow(RowBytes(row) + rest, y, screen, width) == Ok(next, rest)
  {
    var runs := RowRuns(row);
    var tail := Varints(runs) + rest;
    assert ReadVarint(RowBytes(row) + rest, 0) == Ok(|runs|, tail) by {
      RunCountReads(row, runs, rest, tail);
    }
    assert ReadRuns(tail, |runs|, screen[y], 0, false) == Ok((row, width), rest) by {
      RowRunsRead(row, screen[y], runs, rest, tail);
    }
  }

  lemma RunCountReads(row: Row, runs: seq<nat>, rest: seq<Byte>, tail: seq<Byte>)
    requires |row| < LIMIT16 && runs == RowRuns(row) && tail == Varints(runs) + rest
    ensures ReadVarint(RowBytes(row) + rest, 0) == Ok(|runs|, tail)
  {
    assert |runs| < Pow128(6) by {
      RowBytesSize(row);
      Short(|runs|);
    }
    JoinTwo(Varint(|runs|), Varints(runs), rest);
    VarintReads(|runs|, 0, tail);
  }

  lemma RowRunsRead(row: Row, was: Row, runs: seq<nat>, rest: seq<Byte>, tail: seq<Byte>)
    requires |was| == |row| < LIMIT16 && runs == RowRuns(row) && tail == Varints(runs) + rest
    ensures ReadRuns(tail, |runs|, was, 0, false) == Ok((row, |row|), rest)
  {
    Short(|row|);
    RowRunsPaint(row, was);
  }

  lemma JoinTwo(a: seq<Byte>, b: seq<Byte>, c: seq<Byte>)
    ensures a + b + c == a + (b + c)
  {
  }

  /** Rows `y` on are still as they were. */
  lemma {:induction false} BodyReads(prev: seq<Row>, rows: seq<Row>, y: nat, from: nat, width: nat, screen: seq<Row>,
                                     rest: seq<Byte>)
    requires |prev| == |rows| < LIMIT16 && from <= y <= |rows| && width < LIMIT16 && Sized(rows, width)
    requires Sized(prev, width)
    requires screen == rows[..y] + prev[y..]
    ensures ReadRows(Body(prev, rows, y, from) + rest, Changed(prev, rows, y), from, screen, width) == Ok(rows, rest)
    decreases |rows| - y
  {
    if y == |rows| {
      assert screen == rows && Body(prev, rows, y, from) + rest == rest;
    } else {
      var next := rows[..y + 1] + prev[y + 1..];
      if rows[y] == prev[y] {
        assert next == screen;
        BodyReads(prev, rows, y + 1, from, width, screen, rest);
      } else {
        var tail := Body(prev, rows, y + 1, y + 1) + rest;
        BodyReads(prev, rows, y + 1, y + 1, width, next, rest);
        ChangedRowReads(prev, rows, y, from, width, screen, next, rest, tail, y - from);
      }
    }
  }

  lemma ChangedRowReads(prev: seq<Row>, rows: seq<Row>, y: nat, from: nat, width: nat, screen: seq<Row>,
                        next: seq<Row>, rest: seq<Byte>, tail: seq<Byte>, gap: nat)
    requires |prev| == |rows| < LIMIT16 && from <= y < |rows| && gap == y - from && width < LIMIT16
    requires Sized(rows, width) && Sized(prev, width)
    requires screen == rows[..y] + prev[y..] && next == rows[..y + 1] + prev[y + 1..] && rows[y] != prev[y]
    requires tail == Body(prev, rows, y + 1, y + 1) + rest
    ensures ReadRows(Body(prev, rows, y, from) + rest, Changed(prev, rows, y), from, screen, width) ==
            ReadRows(tail, Changed(prev, rows, y + 1), y + 1, next, width)
  {
    var s := Body(prev, rows, y, from) + rest;
    var row := RowBytes(rows[y]) + tail;
    assert s == Varint(gap) + row by {
      BodySplit(prev, rows, y, from, rest, tail, gap);
    }
    assert ReadRow(row, y, screen, width) == Ok(next, tail) by {
      RowGoesIn(prev, rows, y, screen, next);
      RowReads(rows[y], y, screen, width, tail, next);
    }
    assert gap < Pow128(6) by {
      Short(gap);
    }
    ReadRowsStep(gap, s, row, Changed(prev, rows, y), Changed(prev, rows, y + 1), from, screen, width, next, tail, y);
  }

  lemma BodySplit(prev: seq<Row>, rows: seq<Row>, y: nat, from: nat, rest: seq<Byte>, tail: seq<Byte>, gap: nat)
    requires |prev| == |rows| && from <= y < |rows| && gap == y - from && rows[y] != prev[y]
    requires tail == Body(prev, rows, y + 1, y + 1) + rest
    ensures Body(prev, rows, y, from) + rest == Varint(gap) + (RowBytes(rows[y]) + tail)
  {
    JoinThree(Varint(gap), RowBytes(rows[y]), Body(prev, rows, y + 1, y + 1), rest);
  }

  lemma JoinThree(a: seq<Byte>, b: seq<Byte>, c: seq<Byte>, d: seq<Byte>)
    ensures a + b + c + d == a + (b + (c + d))
  {
  }

  lemma RowGoesIn(prev: seq<Row>, rows: seq<Row>, y: nat, screen: seq<Row>, next: seq<Row>)
    requires |prev| == |rows| && y < |rows| && screen == rows[..y] + prev[y..] && next == rows[..y + 1] + prev[y + 1..]
    ensures next == screen[y := rows[y]] && screen[y] == prev[y]
  {
  }

  lemma ReadRowsStep(gap: nat, s: seq<Byte>, after: seq<Byte>, n: nat, m: nat, from: nat, screen: seq<Row>, width: nat,
                     next: seq<Row>, left: seq<Byte>, y: nat)
    requires gap < Pow128(6) && y == from + gap && s == Varint(gap) + after && n == m + 1
    requires ReadRow(after, y, screen, width) == Ok(next, left)
    ensures ReadRows(s, n, from, screen, width) == ReadRows(left, m, y + 1, next, width)
  {
    VarintReads(gap, 0, after);
  }

  lemma FrameReads(prev: seq<Row>, rows: seq<Row>, width: nat, rest: seq<Byte>)
    requires |prev| == |rows| < LIMIT16 && width < LIMIT16 && Sized(rows, width) && Sized(prev, width)
    ensures ReadFrame(FrameBytes(prev, rows) + rest, prev, width) == Ok(rows, rest)
  {
    var payload, body, changed := Payload(prev, rows), Body(prev, rows, 0, 0), Changed(prev, rows, 0);
    var inner, after := payload + rest, body + rest;
    assert ReadVarint(FrameBytes(prev, rows) + rest, 0) == Ok(|payload|, inner) by {
      PayloadSize(prev, rows, width);
      JoinTwo(Varint(|payload|), payload, rest);
      VarintReads(|payload|, 0, inner);
    }
    assert ReadVarint(inner, 0) == Ok(changed, after) by {
      Short(changed);
      JoinTwo(Varint(changed), body, rest);
      VarintReads(changed, 0, after);
    }
    assert ReadRows(after, changed, 0, prev, width) == Ok(rows, rest) by {
      assert prev == rows[..0] + prev[0..];
      BodyReads(prev, rows, 0, 0, width, prev, rest);
    }
  }

  // ---- files ---------------------------------------------------------------------------------------------

  function FramesBytes(screen: seq<Row>, frames: seq<seq<Row>>): seq<Byte>
    requires forall i :: 0 <= i < |frames| ==> |frames[i]| == |screen|
    decreases |frames|
  {
    if frames == [] then [] else FrameBytes(screen, frames[0]) + FramesBytes(frames[0], frames[1..])
  }

  /** What is on the screen after the frames. */
  function Last(screen: seq<Row>, frames: seq<seq<Row>>): seq<Row> {
    if frames == [] then screen else frames[|frames| - 1]
  }

  ghost predicate AllSized(frames: seq<seq<Row>>, width: nat, height: nat) {
    forall i :: 0 <= i < |frames| ==> |frames[i]| == height && Sized(frames[i], width)
  }

  /** A frame more at the end. */
  lemma {:induction false} FramesAppend(screen: seq<Row>, frames: seq<seq<Row>>, rows: seq<Row>)
    requires |rows| == |screen| && forall i :: 0 <= i < |frames| ==> |frames[i]| == |screen|
    ensures FramesBytes(screen, frames + [rows]) == FramesBytes(screen, frames) + FrameBytes(Last(screen, frames), rows)
    decreases |frames|
  {
    var all := frames + [rows];
    if frames == [] {
      assert all[1..] == [];
    } else {
      var tail := frames[1..];
      assert all[0] == frames[0] && all[1..] == tail + [rows];
      FramesAppend(frames[0], tail, rows);
      assert Last(frames[0], tail) == Last(screen, frames);
      JoinTwo(FrameBytes(screen, frames[0]), FramesBytes(frames[0], tail), FrameBytes(Last(screen, frames), rows));
    }
  }

  lemma {:induction false} FramesRead(screen: seq<Row>, frames: seq<seq<Row>>, width: nat, height: nat, rest: seq<Byte>)
    requires |screen| == height < LIMIT16 && width < LIMIT16 && Sized(screen, width) && AllSized(frames, width, height)
    ensures ReadFrames(FramesBytes(screen, frames) + rest, |frames|, screen, width) == Ok(frames, rest)
    decreases |frames|
  {
    if frames == [] {
      assert FramesBytes(screen, frames) + rest == rest;
    } else {
      var tail := FramesBytes(frames[0], frames[1..]) + rest;
      JoinTwo(FrameBytes(screen, frames[0]), FramesBytes(frames[0], frames[1..]), rest);
      FrameReads(screen, frames[0], width, tail);
      FramesRead(frames[0], frames[1..], width, height, rest);
      assert [frames[0]] + frames[1..] == frames;
    }
  }

  const MAGIC: seq<Byte> := [0x42, 0x41, 0x56, 0x31]

  /** Little-endian. */
  function U16(v: nat): (r: seq<Byte>)
    requires v < LIMIT16
    ensures |r| == 2
  {
    [(v % 256) as Byte, (v / 256) as Byte]
  }

  function U32(v: nat): (r: seq<Byte>)
    requires v < LIMIT16 * LIMIT16
    ensures |r| == 4
  {
    U16(v % LIMIT16) + U16(v / LIMIT16)
  }

  function ReadU16(s: seq<Byte>): (v: nat)
    requires |s| == 2
    ensures v < LIMIT16
  {
    s[0] as nat + 256 * s[1] as nat
  }

  function ReadU32(s: seq<Byte>): (v: nat)
    requires |s| == 4
  {
    ReadU16(s[..2]) + LIMIT16 * ReadU16(s[2..])
  }

  lemma NumbersRead(v: nat)
    requires v < LIMIT16 * LIMIT16
    ensures ReadU32(U32(v)) == v && (v < LIMIT16 ==> ReadU16(U16(v)) == v)
  {
    assert U32(v)[..2] == U16(v % LIMIT16) && U32(v)[2..] == U16(v / LIMIT16);
  }

  datatype Info = Info(width: nat, height: nat, fpsNum: nat, fpsDen: nat)

  ghost predicate Fits(info: Info) {
    info.width < LIMIT16 && info.height < LIMIT16 && info.fpsNum < LIMIT16 && info.fpsDen < LIMIT16
  }

  function Header(info: Info, count: nat): (r: seq<Byte>)
    requires Fits(info) && count < LIMIT16 * LIMIT16
    ensures |r| == 16
  {
    MAGIC + U16(info.width) + U16(info.height) + U16(info.fpsNum) + U16(info.fpsDen) + U32(count)
  }

  function Black(width: nat, height: nat): (screen: seq<Row>)
    ensures |screen| == height && Sized(screen, width)
  {
    if height == 0 then [] else [Bits(false, width)] + Black(width, height - 1)
  }

  datatype Decoded = Video(info: Info, frames: seq<seq<Row>>) | Bad(error: BavError)

  /** What a file decodes to; bytes after the last frame are ignored. */
  function Decode(data: seq<Byte>): Decoded {
    if |data| < 4 || data[..4] != MAGIC then Bad(NotBav)
    else if |data| < 16 then Bad(Truncated)
    else
      var info := Info(ReadU16(data[4..6]), ReadU16(data[6..8]), ReadU16(data[8..10]), ReadU16(data[10..12]));
      match ReadFrames(data[16..], ReadU32(data[12..16]), Black(info.width, info.height), info.width)
      case Ok(frames, _) => Video(info, frames)
      case Err(e) => Bad(e)
  }

  lemma HeaderReads(info: Info, count: nat, rest: seq<Byte>, data: seq<Byte>)
    requires Fits(info) && count < LIMIT16 * LIMIT16 && data == Header(info, count) + rest
    ensures |data| >= 16 && data[..4] == MAGIC && data[16..] == rest && ReadU32(data[12..16]) == count
    ensures Info(ReadU16(data[4..6]), ReadU16(data[6..8]), ReadU16(data[8..10]), ReadU16(data[10..12])) == info
  {
    assert data[4..6] == U16(info.width) && data[6..8] == U16(info.height);
    assert data[8..10] == U16(info.fpsNum) && data[10..12] == U16(info.fpsDen) && data[12..16] == U32(count);
    NumbersRead(count);
    NumbersRead(info.width);
    NumbersRead(info.height);
    NumbersRead(info.fpsNum);
    NumbersRead(info.fpsDen);
  }

  /** The format holds every list of frames: decoding gives back exactly what was encoded. */
  lemma DecodeEncodes(info: Info, frames: seq<seq<Row>>, rest: seq<Byte>, data: seq<Byte>)
    requires Fits(info) && |frames| < LIMIT16 * LIMIT16 && AllSized(frames, info.width, info.height)
    requires data == Header(info, |frames|) + (FramesBytes(Black(info.width, info.height), frames) + rest)
    ensures Decode(data) == Video(info, frames)
  {
    HeaderReads(info, |frames|, FramesBytes(Black(info.width, info.height), frames) + rest, data);
    FramesRead(Black(info.width, info.height), frames, info.width, info.height, rest);
  }

  // ---- files the encoder did not write --------------------------------------------------------------------

  /** Runs that end within the row keep its width. */
  lemma {:induction false} RunsKeepWidth(s: seq<Byte>, n: nat, row: Row, x: nat, colour: bool)
    requires ReadRuns(s, n, row, x, colour).Ok?
    ensures x <= ReadRuns(s, n, row, x, colour).value.1
    ensures ReadRuns(s, n, row, x, colour).value.1 <= |row| ==> |ReadRuns(s, n, row, x, colour).value.0| == |row|
    decreases n
  {
    if n > 0 {
      var run, rest := ReadVarint(s, 0).value, ReadVarint(s, 0).rest;
      RunsKeepWidth(rest, n - 1, Painted(row, x, run, colour), x + run, !colour);
      if x + run <= |row| {
        assert |Painted(row, x, run, colour)| == |row|;
      }
    }
  }

  lemma RowKeepsSize(s: seq<Byte>, y: nat, screen: seq<Row>, width: nat)
    requires Sized(screen, width) && ReadRow(s, y, screen, width).Ok?
    ensures Sized(ReadRow(s, y, screen, width).value, width)
  {
    var runs, rest := ReadVarint(s, 0).value, ReadVarint(s, 0).rest;
    if y < |screen| {
      RunsKeepWidth(rest, runs, screen[y], 0, false);
    }
  }

  lemma {:induction false} RowsKeepSize(s: seq<Byte>, n: nat, from: nat, screen: seq<Row>, width: nat)
    requires Sized(screen, width) && ReadRows(s, n, from, screen, width).Ok?
    ensures Sized(ReadRows(s, n, from, screen, width).value, width)
    decreases n
  {
    if n > 0 {
      var gap, rest := ReadVarint(s, 0).value, ReadVarint(s, 0).rest;
      RowKeepsSize(rest, from + gap, screen, width);
      var next := ReadChanged(s, from, screen, width);
      RowsKeepSize(next.rest, n - 1, next.value.1, next.value.0, width);
    }
  }

  lemma {:induction false} FramesKeepSize(s: seq<Byte>, n: nat, screen: seq<Row>, width: nat)
    requires Sized(screen, width) && ReadFrames(s, n, screen, width).Ok?
    ensures |ReadFrames(s, n, screen, width).value| == n
    ensures AllSized(ReadFrames(s, n, screen, width).value, width, |screen|)
    decreases n
  {
    if n > 0 {
      var next := ReadFrame(s, screen, width);
      var rest := ReadVarint(s, 0).rest;
      RowsKeepSize(ReadVarint(rest, 0).rest, ReadVarint(rest, 0).value, 0, screen, width);
      FramesKeepSize(next.rest, n - 1, next.value, width);
    }
  }

  /** Whatever bytes decode, the frames have the size and the number the header gives. */
  lemma DecodedIsSized(data: seq<Byte>)
    requires Decode(data).Video?
    ensures |data| >= 16 && |Decode(data).frames| == ReadU32(data[12..16])
    ensures AllSized(Decode(data).frames, Decode(data).info.width, Decode(data).info.height)
  {
    var info := Decode(data).info;
    FramesKeepSize(data[16..], ReadU32(data[12..16]), Black(info.width, info.height), info.width);
  }
}
