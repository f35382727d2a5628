/** What the bytes of a BAV file are, beyond reading back: the header's numbers low byte first, a
    frame no longer than the rows that changed, an unchanged one in two bytes.
  */
module BavLayout {
  import opened Bytes
  import opened BavFormat

  /** "BAV1", width, height, the frame rate as a fraction, and the number of frames. */
  lemma HeaderLayout(info: Info, count: nat)
    requires Fits(info) && count < LIMIT16 * LIMIT16
    ensures var h := Header(info, count);
      && h[..4] == [66, 65, 86, 49]
      && h[4] as nat + 256 * h[5] as nat == info.width && h[6] as nat + 256 * h[7] as nat == info.height
      && h[8] as nat + 256 * h[9] as nat == info.fpsNum && h[10] as nat + 256 * h[11] as nat == info.fpsDen
      && h[12] as nat + 256 * h[13] as nat + 65536 * h[14] as nat + 16777216 * h[15] as nat == count
  {
    var h := Header(info, count);
    assert h[4..6] == U16(info.width) && h[6..8] == U16(info.height);
    assert h[8..10] == U16(info.fpsNum) && h[10..12] == U16(info.fpsDen) && h[12..16] == U32(count);
    assert h[4] == h[4..6][0] && h[5] == h[4..6][1] && h[6] == h[6..8][0] && h[7] == h[6..8][1];
    assert h[8] == h[8..10][0] && h[9] == h[8..10][1] && h[10] == h[10..12][0] && h[11] == h[10..12][1];
    assert h[12] == h[12..16][0] && h[13] == h[12..16][1] && h[14] == h[12..16][2] && h[15] == h[12..16][3];
  }

  /** All bytes of a varint but the last are marked, and none is wasted. */
  lemma {:induction false} VarintLayout(v: nat)
    ensures var r := Varint(v);
      && r[|r| - 1] < 128 && (forall i :: 0 <= i < |r| - 1 ==> r[i] >= 128)
      && (|r| > 1 ==> r[|r| - 1] != 0)
  {
    if v >= 128 {
      VarintLayout(v / 128);
      var (r, rest) := (Varint(v), Varint(v / 128));
      assert r[1..] == rest;
      assert r[|r| - 1] == rest[|rest| - 1];
      forall i | 0 < i < |r| - 1
        ensures r[i] >= 128
      {
        assert r[i] == rest[i - 1];
      }
    }
  }

  // ---- frames ----------------------------------------------------------------------------------------

  ghost function Differing(prev: seq<Row>, rows: seq<Row>, y: nat): set<nat>
    requires |prev| == |rows|
  {
    set i: nat | y <= i < |rows| && rows[i] != prev[i]
  }

  /** A frame starts with the number of rows that differ, and mentions no others. */
  lemma {:induction false} ChangedCounts(prev: seq<Row>, rows: seq<Row>, y: nat)
    requires |prev| == |rows| && y <= |rows|
    ensures Changed(prev, rows, y) == |Differing(prev, rows, y)|
    decreases |rows| - y
  {
    if y == |rows| {
      assert Differing(prev, rows, y) == {};
    } else {
      ChangedCounts(prev, rows, y + 1);
      if rows[y] == prev[y] {
        assert Differing(prev, rows, y) == Differing(prev, rows, y + 1);
      } else {
        assert Differing(prev, rows, y) == {y} + Differing(prev, rows, y + 1);
      }
    }
  }

  lemma {:induction false} NothingChanged(rows: seq<Row>, y: nat, from: nat)
    requires from <= y <= |rows|
    ensures Body(rows, rows, y, from) == [] && Changed(rows, rows, y) == 0
    decreases |rows| - y
  {
    if y < |rows| {
      NothingChanged(rows, y + 1, from);
    }
  }

  /** A frame like the one before costs two bytes: its length, and that no row changed. */
  lemma UnchangedFrame(rows: seq<Row>)
    ensures FrameBytes(rows, rows) == [1, 0]
  {
    NothingChanged(rows, 0, 0);
  }

  // ---- runs ------------------------------------------------------------------------------------------

  function Total(runs: seq<nat>): nat {
    if runs == [] then 0 else runs[0] + Total(runs[1..])
  }

  /** Runs alternate from black on: only the first can be empty, exactly when the row starts white,
      and together they are the row. */
  lemma RunsLayout(row: Row)
    ensures var r := RowRuns(row);
      && Total(r) == |row| && (forall i :: 0 < i < |r| ==> r[i] > 0)
      && (row != [] ==> r != [] && (r[0] == 0 <==> row[0]))
  {
    RunsTotal(row);
    if row != [] && row[0] {
      assert RowRuns(row)[1..] == MaximalRuns(row);
    }
  }

  lemma {:induction false} RunsTotal(row: Row)
    ensures Total(MaximalRuns(row)) == |row| && forall i :: 0 <= i < |MaximalRuns(row)| ==> MaximalRuns(row)[i] > 0
    decreases |row|
  {
    if row != [] {
      var n := Leading(row, row[0]);
      RunsTotal(row[n..]);
      assert MaximalRuns(row)[1..] == MaximalRuns(row[n..]);
    }
  }
}
