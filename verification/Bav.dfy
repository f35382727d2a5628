/** The BAV encoder and decoder as they run, against what the format says.

    A frame is `width * height` pixels row by row; `Rows` cuts it up.
  */
module Bav {
  import opened Bytes
  import opened BavFormat

  // ---- frames as one string of pixels -----------------------------------------------------------------

  /** `width * height`, a row at a time. */
  function Area(width: nat, height: nat): nat {
    if height == 0 then 0 else width + Area(width, height - 1)
  }

  lemma {:induction false} AreaIs(width: nat, height: nat)
    ensures Area(width, height) == width * height
  {
    if height > 0 {
      AreaIs(width, height - 1);
      assert width * height == width + width * (height - 1);
    }
  }

  function Rows(bits: Row, width: nat, height: nat): (rows: seq<Row>)
    requires |bits| == Area(width, height)
    ensures |rows| == height && Sized(rows, width)
  {
    if height == 0 then [] else [bits[..width]] + Rows(bits[width..], width, height - 1)
  }

  function Joined(rows: seq<Row>): Row {
    if rows == [] then [] else rows[0] + Joined(rows[1..])
  }

  lemma {:induction false} RowsJoined(bits: Row, width: nat, height: nat)
    requires |bits| == Area(width, height)
    ensures Joined(Rows(bits, width, height)) == bits
  {
    if height > 0 {
      RowsJoined(bits[width..], width, height - 1);
      assert Rows(bits, width, height)[1..] == Rows(bits[width..], width, height - 1);
      assert bits[..width] + bits[width..] == bits;
    }
  }

  lemma {:induction false} RowIs(bits: Row, width: nat, height: nat, y: nat)
    requires |bits| == Area(width, height) && y < height
    ensures Area(width, y) + width <= |bits|
    ensures Rows(bits, width, height)[y] == bits[Area(width, y)..Area(width, y) + width]
  {
    if y > 0 {
      var rest := bits[width..];
      RowIs(rest, width, height - 1, y - 1);
      assert rest[Area(width, y - 1)..Area(width, y - 1) + width] == bits[Area(width, y)..Area(width, y) + width];
    }
  }

  function AllRows(frames: seq<Row>, width: nat, height: nat): (r: seq<seq<Row>>)
    requires forall i :: 0 <= i < |frames| ==> |frames[i]| == Area(width, height)
    ensures |r| == |frames| && AllSized(r, width, height)
    ensures forall i :: 0 <= i < |frames| ==> r[i] == Rows(frames[i], width, height)
  {
    if frames == [] then []
    else AllRows(frames[..|frames| - 1], width, height) + [Rows(frames[|frames| - 1], width, height)]
  }

  function AllJoined(frames: seq<seq<Row>>): (r: seq<Row>)
    ensures |r| == |frames| && forall i :: 0 <= i < |frames| ==> r[i] == Joined(frames[i])
  {
    if frames == [] then [] else AllJoined(frames[..|frames| - 1]) + [Joined(frames[|frames| - 1])]
  }

  /** Joining the rows a frame was cut into gives the frame back. */
  lemma AllRowsJoined(frames: seq<Row>, width: nat, height: nat)
    requires forall i :: 0 <= i < |frames| ==> |frames[i]| == Area(width, height)
    ensures AllJoined(AllRows(frames, width, height)) == frames
  {
    var r := AllJoined(AllRows(frames, width, height));
    forall i | 0 <= i < |frames|
      ensures r[i] == frames[i]
    {
      RowsJoined(frames[i], width, height);
    }
  }

  // ---- encoding ------------------------------------------------------------------------------------------

  method EncodeVarint(value: nat) returns (out: seq<Byte>)
    ensures out == Varint(value)
  {
    out := [];
    var v := value;
    while v >= 128
      invariant out + Varint(v) == Varint(value)
    {
      assert out + Varint(v) == out + [(v % 128 + 128) as Byte] + Varint(v / 128);
      out := out + [(v % 128 + 128) as Byte];
      v := v / 128;
    }
    out := out + [v as Byte];
  }

  method EncodeRuns(runs: seq<nat>) returns (out: seq<Byte>)
    ensures out == Varints(runs)
  {
    out := [];
    var i := 0;
    while i < |runs|
      invariant i <= |runs| && out + Varints(runs[i..]) == Varints(runs)
    {
      var run := EncodeVarint(runs[i]);
      assert runs[i..][1..] == runs[i + 1..];
      assert out + Varints(runs[i..]) == out + run + Varints(runs[i + 1..]);
      out := out + run;
      i := i + 1;
    }
    assert runs[i..] == [];
  }

  /** `row_runs`, by one pass over the row. */
  method FindRuns(row: Row) returns (runs: seq<nat>)
    ensures runs == RowRuns(row)
  {
    runs := if row != [] && row[0] then [0] else [];
    RunsStart(row, runs);
    var x: nat := 0;
    while x < |row|
      invariant x <= |row| && RunsTo(row, x, runs)
    {
      var n := NextRun(row, x, runs);
      runs := runs + [n];
      x := x + n;
    }
    RunsEnd(row, runs);
  }

  method NextRun(row: Row, x: nat, ghost runs: seq<nat>) returns (n: nat)
    requires x < |row| && RunsTo(row, x, runs)
    ensures 0 < n <= |row| - x && RunsTo(row, x + n, runs + [n])
  {
    n := Leading(row[x..], row[x]);
    RunsFrom(row, x, n, runs);
  }

  /** The runs up to column `x` are found. */
  ghost predicate RunsTo(row: Row, x: nat, runs: seq<nat>)
    requires x <= |row|
  {
    runs + MaximalRuns(row[x..]) == RowRuns(row)
  }

  lemma RunsStart(row: Row, runs: seq<nat>)
    requires runs == if row != [] && row[0] then [0] else []
    ensures RunsTo(row, 0, runs)
  {
    assert row[0..] == row;
  }

  lemma RunsFrom(row: Row, x: nat, n: nat, runs: seq<nat>)
    requires x < |row| && n == Leading(row[x..], row[x]) && RunsTo(row, x, runs)
    ensures 0 < n <= |row| - x && RunsTo(row, x + n, runs + [n])
  {
    assert row[x..][n..] == row[x + n..];
    assert runs + MaximalRuns(row[x..]) == runs + [n] + MaximalRuns(row[x + n..]);
  }

  lemma RunsEnd(row: Row, runs: seq<nat>)
    requires RunsTo(row, |row|, runs)
    ensures runs == RowRuns(row)
  {
    assert row[|row|..] == [];
    assert runs + [] == runs;
  }

  /** How far the rows are encoded. */
  ghost predicate Encoded(was: seq<Row>, rows: seq<Row>, y: nat, from: nat, body: seq<Byte>, changed: nat)
    requires |was| == |rows| && from <= y <= |rows|
  {
    body + Body(was, rows, y, from) == Body(was, rows, 0, 0) && changed + Changed(was, rows, y) == Changed(was, rows, 0)
  }

  lemma EncodedRow(was: seq<Row>, rows: seq<Row>, y: nat, from: nat, body: seq<Byte>, changed: nat, gap: nat,
                   bytes: seq<Byte>,
                   body': seq<Byte>, changed': nat, from': nat)
    requires |was| == |rows| && from <= y < |rows| && Encoded(was, rows, y, from, body, changed) && rows[y] != was[y]
    requires gap == y - from && bytes == Varint(gap) + RowBytes(rows[y])
    requires body' == body + bytes && changed' == changed + 1 && from' == y + 1
    ensures Encoded(was, rows, y + 1, from', body', changed')
  {
    var (whole, tail) := (Body(was, rows, y, from), Body(was, rows, y + 1, y + 1));
    BodyTakes(was, rows, y, from, gap, bytes, whole, tail);
    Regroup(body, bytes, body', whole, tail);
  }

  lemma BodyTakes(was: seq<Row>, rows: seq<Row>, y: nat, from: nat, gap: nat, bytes: seq<Byte>, whole: seq<Byte>,
                  tail: seq<Byte>)
    requires |was| == |rows| && from <= y < |rows| && rows[y] != was[y] && gap == y - from
    requires bytes == Varint(gap) + RowBytes(rows[y]) && whole == Body(was, rows, y, from)
    requires tail == Body(was, rows, y + 1, y + 1)
    ensures whole == bytes + tail
  {
  }

  lemma Regroup(body: seq<Byte>, bytes: seq<Byte>, body': seq<Byte>, whole: seq<Byte>, tail: seq<Byte>)
    requires whole == bytes + tail && body' == body + bytes
    ensures body + whole == body' + tail
  {
  }

  lemma EncodedSame(was: seq<Row>, rows: seq<Row>, y: nat, from: nat, body: seq<Byte>, changed: nat)
    requires |was| == |rows| && from <= y < |rows| && Encoded(was, rows, y, from, body, changed) && rows[y] == was[y]
    ensures Encoded(was, rows, y + 1, from, body, changed)
  {
  }

  lemma Appended(info: Info, count: nat, added: seq<seq<Row>>, rows: seq<Row>, previous: seq<Row>, file: seq<Byte>,
                 bytes: seq<Byte>)
    requires Fits(info) && count < LIMIT16 * LIMIT16 && AllSized(added, info.width, info.height)
    requires |rows| == info.height
    requires previous == Last(Black(info.width, info.height), added) && bytes == FrameBytes(previous, rows)
    requires file == Header(info, count) + FramesBytes(Black(info.width, info.height), added)
    ensures file + bytes == Header(info, count) + FramesBytes(Black(info.width, info.height), added + [rows])
  {
    var black := Black(info.width, info.height);
    FramesAppend(black, added, rows);
    JoinTwo(Header(info, count), FramesBytes(black, added), bytes);
  }

  lemma EncodedStart(was: seq<Row>, rows: seq<Row>)
    requires |was| == |rows|
    ensures Encoded(was, rows, 0, 0, [], 0) && was == rows[..0] + was[0..]
  {
    assert [] + Body(was, rows, 0, 0) == Body(was, rows, 0, 0);
  }

  lemma EncodedEnd(was: seq<Row>, rows: seq<Row>, from: nat, body: seq<Byte>, changed: nat)
    requires |was| == |rows| && from <= |rows| && Encoded(was, rows, |rows|, from, body, changed)
    ensures body == Body(was, rows, 0, 0) && changed == Changed(was, rows, 0) && rows[..|rows|] + was[|rows|..] == rows
  {
    assert body + [] == body;
  }

  method RowAt(bits: Row, width: nat, height: nat, y: nat) returns (row: Row)
    requires |bits| == Area(width, height) && y < height
    ensures row == Rows(bits, width, height)[y]
  {
    RowIs(bits, width, height, y);
    AreaIs(width, y);
    var start := y * width;
    assert start == Area(width, y);
    row := bits[start..start + width];
  }

  class Encoder {
    const info: Info
    var file: seq<Byte>
    var previous: seq<Row>
    var frames: nat
    /** The frames added so far. */
    ghost var added: seq<seq<Row>>
    /** The frame count in the header. */
    ghost var count: nat

    ghost predicate Valid()
      reads this
    {
      && Fits(info) && frames == |added| && AllSized(added, info.width, info.height) && count < LIMIT16 * LIMIT16
      && previous == Last(Black(info.width, info.height), added)
      && file == Header(info, count) + FramesBytes(Black(info.width, info.height), added)
    }

    constructor (width: nat, height: nat, fpsNum: nat, fpsDen: nat)
      requires Fits(Info(width, height, fpsNum, fpsDen))
      ensures Valid() && info == Info(width, height, fpsNum, fpsDen) && added == []
    {
      info := Info(width, height, fpsNum, fpsDen);
      previous, frames, added, count := Black(width, height), 0, [], 0;
      file := Header(Info(width, height, fpsNum, fpsDen), 0);
      new;
      assert FramesBytes(Black(width, height), []) == [];
    }

    /** Adds a frame; refused when its size is wrong. */
    method Add(bits: Row) returns (ok: bool)
      requires Valid()
      modifies this
      ensures Valid() && count == old(count) && (ok <==> |bits| == Area(info.width, info.height))
      ensures added == if ok then old(added) + [Rows(bits, info.width, info.height)] else old(added)
    {
      AreaIs(info.width, info.height);
      if |bits| != info.width * info.height {
        return false;
      }
      var payload := AddRows(bits);
      var length := EncodeVarint(|payload|);
      Appended(info, count, added, previous, old(previous), file, length + payload);
      file := file + (length + payload);
      frames := frames + 1;
      added := added + [previous];
      return true;
    }

    /** The rows that changed, `previous` becoming the new frame. */
    method AddRows(bits: Row) returns (payload: seq<Byte>)
      requires |bits| == Area(info.width, info.height) && |previous| == info.height
      modifies this`previous
      ensures previous == Rows(bits, info.width, info.height) && payload == Payload(old(previous), previous)
    {
      ghost var was, rows := previous, Rows(bits, info.width, info.height);
      var body: seq<Byte>, changed: nat, from: nat, y: nat := [], 0, 0, 0;
      EncodedStart(was, rows);
      while y < info.height
        invariant from <= y <= info.height && previous == rows[..y] + was[y..]
        invariant Encoded(was, rows, y, from, body, changed)
      {
        var row := RowAt(bits, info.width, info.height, y);
        body, changed, from := AddRow(row, y, body, changed, from, was, rows);
        y := y + 1;
      }
      EncodedEnd(was, rows, from, body, changed);
      var n := EncodeVarint(changed);
      payload := n + body;
    }

    /** One row: skipped when it is as it was. */
    method AddRow(row: Row, y: nat, body: seq<Byte>, changed: nat, from: nat, ghost was: seq<Row>, ghost rows: seq<Row>)
      returns (body': seq<Byte>, changed': nat, from': nat)
      requires |was| == |rows| && from <= y < |rows| && row == rows[y] && previous == rows[..y] + was[y..]
      requires Encoded(was, rows, y, from, body, changed)
      modifies this`previous
      ensures from' <= y + 1 && previous == rows[..y + 1] + was[y + 1..]
      ensures Encoded(was, rows, y + 1, from', body', changed')
    {
      RowGoesIn(was, rows, y, previous, rows[..y + 1] + was[y + 1..]);
      if row == previous[y] {
        EncodedSame(was, rows, y, from, body, changed);
        return body, changed, from;
      }
      previous := previous[y := row];
      var gap: nat := y - from;
      var bytes := EncodeRow(gap, row);
      body', changed', from' := body + bytes, changed + 1, y + 1;
      EncodedRow(was, rows, y, from, body, changed, gap, bytes, body', changed', from');
    }

    /** Patches the frame count into the header; refused when it does not fit. */
    method Finish() returns (ok: bool)
      requires Valid()
      modifies this`file, this`count
      ensures Valid() && (ok <==> frames < LIMIT16 * LIMIT16) && (ok ==> count == frames)
    {
      if frames >= LIMIT16 * LIMIT16 {
        return false;
      }
      assert file[..12] == Header(info, frames)[..12];
      assert Header(info, frames) == Header(info, frames)[..12] + U32(frames);
      assert file[16..] == FramesBytes(Black(info.width, info.height), added);
      file := file[..12] + U32(frames) + file[16..];
      count := frames;
      return true;
    }

    /** The finished file decodes to the frames that were added. */
    lemma FinishedDecodes()
      requires Valid() && count == frames
      ensures Decode(file) == Video(info, added)
    {
      assert file == Header(info, |added|) + (FramesBytes(Black(info.width, info.height), added) + []);
      DecodeEncodes(info, added, [], file);
    }
  }

  method EncodeRow(gap: nat, row: Row) returns (out: seq<Byte>)
    ensures out == Varint(gap) + RowBytes(row)
  {
    var runs := FindRuns(row);
    var first := EncodeVarint(gap);
    var n := EncodeVarint(|runs|);
    var rest := EncodeRuns(runs);
    out := first + n + rest;
  }

  // ---- decoding ------------------------------------------------------------------------------------------------

  /** What was read, and the offset after it. */
  datatype Step<T> = Got(value: T, offset: nat) | Failed(error: BavError)

  /** Reading at an offset comes to what parsing the rest of the data says. */
  ghost predicate Agrees<T>(data: seq<Byte>, r: Step<T>, parsed: Parsed<T>) {
    match parsed
    case Ok(value, rest) => r.Got? && r.value == value && r.offset <= |data| && data[r.offset..] == rest
    case Err(e) => r == Failed(e)
  }

  /** `value` holds the first `n` groups of seven bits. */
  ghost function Continued(value: nat, n: nat, parsed: Parsed<nat>): Parsed<nat> {
    match parsed
    case Ok(v, rest) => Ok(value + Pow128(n) * v, rest)
    case Err(e) => Err(e)
  }

  method DecodeVarint(data: seq<Byte>, start: nat) returns (r: Step<nat>)
    requires start <= |data|
    ensures Agrees(data, r, ReadVarint(data[start..], 0))
  {
    var value: nat, n: nat, offset: nat := 0, 0, start;
    while true
      invariant start <= offset <= |data| && n <= 5
      invariant ReadVarint(data[start..], 0) == Continued(value, n, ReadVarint(data[offset..], n))
      decreases |data| - offset
    {
      if offset >= |data| {
        return Failed(Truncated);
      }
      var byte := data[offset];
      assert data[offset..][1..] == data[offset + 1..];
      offset := offset + 1;
      if byte < 128 {
        return Got(value + Pow128(n) * (byte as nat), offset);
      }
      if n + 1 > 5 {
        return Failed(VarintTooLong);
      }
      Carry(value, n, byte as nat - 128, ReadVarint(data[offset..], n + 1));
      value := value + Pow128(n) * (byte as nat - 128);
      n := n + 1;
    }
  }

  lemma Carry(value: nat, n: nat, low: nat, parsed: Parsed<nat>)
    ensures parsed.Ok? ==>
          value + Pow128(n) * (low + 128 * parsed.value) == value + Pow128(n) * low + Pow128(n + 1) * parsed.value
  {
    if parsed.Ok? {
      var (p, v) := (Pow128(n), parsed.value);
      assert p * (low + 128 * v) == p * low + 128 * p * v;
    }
  }

  method DecodeRuns(data: seq<Byte>, start: nat, runs: nat, row: Row) returns (r: Step<(Row, nat)>)
    requires start <= |data|
    ensures Agrees(data, r, ReadRuns(data[start..], runs, row, 0, false))
  {
    var painted, x: nat, colour, offset: nat, left: nat := row, 0, false, start, runs;
    while left > 0
      invariant offset <= |data|
      invariant ReadRuns(data[start..], runs, row, 0, false) == ReadRuns(data[offset..], left, painted, x, colour)
    {
      var run := DecodeVarint(data, offset);
      if run.Failed? {
        return Failed(run.error);
      }
      painted := Painted(painted, x, run.value, colour);
      x, colour, offset, left := x + run.value, !colour, run.offset, left - 1;
    }
    return Got((painted, x), offset);
  }

  method DecodeRow(data: seq<Byte>, start: nat, y: nat, screen: seq<Row>, width: nat) returns (r: Step<seq<Row>>)
    requires start <= |data|
    ensures Agrees(data, r, ReadRow(data[start..], y, screen, width))
  {
    var runs := DecodeVarint(data, start);
    if runs.Failed? {
      return Failed(runs.error);
    }
    if y >= |screen| {
      if runs.value == 0 {
        return if width == 0 then Got(screen, runs.offset) else Failed(RunsDoNotFill);
      }
      var run := DecodeVarint(data, runs.offset);
      return if run.Failed? then Failed(run.error) else Failed(NoSuchRow);
    }
    var painted := DecodeRuns(data, runs.offset, runs.value, screen[y]);
    if painted.Failed? {
      return Failed(painted.error);
    }
    if painted.value.1 != width {
      return Failed(RunsDoNotFill);
    }
    return Got(screen[y := painted.value.0], painted.offset);
  }

  method DecodeChanged(data: seq<Byte>, start: nat, from: nat, screen: seq<Row>,
                       width: nat) returns (r: Step<(seq<Row>, nat)>)
    requires start <= |data|
    ensures Agrees(data, r, ReadChanged(data[start..], from, screen, width))
  {
    var gap := DecodeVarint(data, start);
    if gap.Failed? {
      return Failed(gap.error);
    }
    var row := DecodeRow(data, gap.offset, from + gap.value, screen, width);
    if row.Failed? {
      return Failed(row.error);
    }
    return Got((row.value, from + gap.value + 1), row.offset);
  }

  method DecodeRows(data: seq<Byte>, start: nat, changed: nat, screen: seq<Row>, width: nat) returns (r: Step<seq<Row>>)
    requires start <= |data|
    ensures Agrees(data, r, ReadRows(data[start..], changed, 0, screen, width))
  {
    ghost var whole := ReadRows(data[start..], changed, 0, screen, width);
    var next, from: nat, offset: nat, left: nat := screen, 0, start, changed;
    while left > 0
      invariant offset <= |data| && whole == ReadRows(data[offset..], left, from, next, width)
    {
      var row := DecodeChanged(data, offset, from, next, width);
      if row.Failed? {
        return Failed(row.error);
      }
      next, from, offset, left := row.value.0, row.value.1, row.offset, left - 1;
    }
    return Got(next, offset);
  }

  method DecodeFrame(data: seq<Byte>, start: nat, screen: seq<Row>, width: nat) returns (r: Step<seq<Row>>)
    requires start <= |data|
    ensures Agrees(data, r, ReadFrame(data[start..], screen, width))
  {
    var length := DecodeVarint(data, start);
    if length.Failed? {
      return Failed(length.error);
    }
    var end := length.offset + length.value;
    var changed := DecodeVarint(data, length.offset);
    if changed.Failed? {
      return Failed(changed.error);
    }
    var rows := DecodeRows(data, changed.offset, changed.value, screen, width);
    if rows.Got? && rows.offset != end {
      return Failed(LengthMismatch);
    }
    return rows;
  }

  method DecodeFrames(data: seq<Byte>, start: nat, count: nat, screen: seq<Row>,
                      width: nat) returns (r: Step<seq<seq<Row>>>)
    requires start <= |data|
    ensures Agrees(data, r, ReadFrames(data[start..], count, screen, width))
  {
    var frames: seq<seq<Row>>, next, offset: nat, left: nat := [], screen, start, count;
    NothingBefore(ReadFrames(data[start..], count, screen, width));
    while left > 0
      invariant offset <= |data|
      invariant ReadFrames(data[start..], count, screen, width) ==
          After(frames, ReadFrames(data[offset..], left, next, width))
    {
      var frame := DecodeFrame(data, offset, next, width);
      if frame.Failed? {
        return Failed(frame.error);
      }
      FrameAfter(frames, data[offset..], left, next, width);
      frames, next, offset, left := frames + [frame.value], frame.value, frame.offset, left - 1;
    }
    assert frames + [] == frames;
    return Got(frames, offset);
  }

  ghost function After(frames: seq<seq<Row>>, parsed: Parsed<seq<seq<Row>>>): Parsed<seq<seq<Row>>> {
    match parsed
    case Ok(more, rest) => Ok(frames + more, rest)
    case Err(e) => Err(e)
  }

  lemma NothingBefore(parsed: Parsed<seq<seq<Row>>>)
    ensures After([], parsed) == parsed
  {
    if parsed.Ok? {
      assert [] + parsed.value == parsed.value;
    }
  }

  lemma FrameAfter(frames: seq<seq<Row>>, s: seq<Byte>, n: nat, screen: seq<Row>, width: nat)
    requires n > 0
    ensures var frame := ReadFrame(s, screen, width);
      frame.Ok? ==> After(frames, ReadFrames(s, n, screen, width)) ==
                    After(frames + [frame.value], ReadFrames(frame.rest, n - 1, frame.value, width))
  {
    var frame := ReadFrame(s, screen, width);
    if frame.Ok? {
      var more := ReadFrames(frame.rest, n - 1, frame.value, width);
      if more.Ok? {
        assert frames + ([frame.value] + more.value) == frames + [frame.value] + more.value;
      }
    }
  }

  /** `decode`. */
  method DecodeFile(data: seq<Byte>) returns (r: Decoded)
    ensures r == Decode(data)
  {
    if |data| < 4 || data[..4] != MAGIC {
      return Bad(NotBav);
    }
    if |data| < 16 {
      return Bad(Truncated);
    }
    var info := Info(ReadU16(data[4..6]), ReadU16(data[6..8]), ReadU16(data[8..10]), ReadU16(data[10..12]));
    var frames := DecodeFrames(data, 16, ReadU32(data[12..16]), Black(info.width, info.height), info.width);
    return if frames.Failed? then Bad(frames.error) else Video(info, frames.value);
  }

  lemma AllRowsNext(frames: seq<Row>, i: nat, width: nat, height: nat)
    requires i < |frames| && forall j :: 0 <= j < |frames| ==> |frames[j]| == Area(width, height)
    ensures AllRows(frames[..i + 1], width, height) ==
        AllRows(frames[..i], width, height) + [Rows(frames[i], width, height)]
  {
    assert frames[..i + 1][..i] == frames[..i];
  }

  /** A whole file, frame by frame. */
  method EncodeAll(info: Info, frames: seq<Row>) returns (file: seq<Byte>)
    requires Fits(info) && |frames| < LIMIT16 * LIMIT16
    requires forall i :: 0 <= i < |frames| ==> |frames[i]| == Area(info.width, info.height)
    ensures Decode(file) == Video(info, AllRows(frames, info.width, info.height))
  {
    var encoder := new Encoder(info.width, info.height, info.fpsNum, info.fpsDen);
    var i := 0;
    while i < |frames|
      invariant 0 <= i <= |frames| && fresh(encoder) && encoder.Valid() && encoder.info == info
      invariant encoder.added == AllRows(frames[..i], info.width, info.height)
    {
      var ok := encoder.Add(frames[i]);
      AllRowsNext(frames, i, info.width, info.height);
      i := i + 1;
    }
    assert frames[..i] == frames;
    var ok := encoder.Finish();
    encoder.FinishedDecodes();
    file := encoder.file;
  }

  /** Encoding any frames of the right size and decoding the file gives them back, pixel by pixel. */
  method RoundTrip(info: Info, frames: seq<Row>) returns (decoded: seq<Row>)
    requires Fits(info) && |frames| < LIMIT16 * LIMIT16
    requires forall i :: 0 <= i < |frames| ==> |frames[i]| == Area(info.width, info.height)
    ensures decoded == frames
  {
    var file := EncodeAll(info, frames);
    var video := DecodeFile(file);
    AllRowsJoined(frames, info.width, info.height);
    decoded := AllJoined(video.frames);
  }
}
