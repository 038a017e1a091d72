/**
 * Cardinal direction of a line from its angle in degrees (0 is due east, counter-clockwise
 * positive), and the cursor loops that write the angle and the direction name onto each
 * row of a line or TMC table.
 */
module CardinalDirection {
  import opened Wrappers

  /** The four names `get_card_dir` can give; its "unknown" fallback is never reached. */
  const Compass: seq<string> := ["E", "N", "W", "S"]

  /**
   * `get_card_dir`: east is [-45, 45), north [45, 135), west from 135 up and below -135,
   * south [-135, -45); anything else would be "unknown".
   */
  function CardDir(angle: real): (d: string)
    ensures d in Compass && d != "unknown"
  {
    if -45.0 <= angle < 45.0 then "E"
    else if 45.0 <= angle < 135.0 then "N"
    else if angle >= 135.0 || angle < -135.0 then "W"
    else if -135.0 <= angle < -45.0 then "S"
    else "unknown"
  }

  /**
   * Over one turn around the range of `atan2` in degrees, the name is that of the quarter
   * turn centred on each axis: the sector number is floor((angle + 45) / 90) modulo 4, in
   * the order E, N, W, S.
   */
  lemma CardDirSector(angle: real)
    requires -225.0 <= angle < 225.0
    ensures CardDir(angle) == Compass[((angle + 45.0) / 90.0).Floor % 4]
  {
    var t := (angle + 45.0) / 90.0;
    assert t * 90.0 == angle + 45.0;
    var k := t.Floor;
    assert k as real <= t < k as real + 1.0;
    if angle < -135.0 {
      assert -2.0 <= t < -1.0;
      assert k == -2;
    } else if angle < -45.0 {
      assert -1.0 <= t < 0.0;
      assert k == -1;
    } else if angle < 45.0 {
      assert 0.0 <= t < 1.0;
      assert k == 0;
    } else if angle < 135.0 {
      assert 1.0 <= t < 2.0;
      assert k == 1;
    } else {
      assert 2.0 <= t < 3.0;
      assert k == 2;
    }
  }

  /** The boundary angles and the two ends of the `atan2` range. */
  lemma CardDirBoundaries()
    ensures CardDir(-45.0) == "E" && CardDir(45.0) == "N" && CardDir(135.0) == "W" && CardDir(-135.0) == "S"
    ensures CardDir(180.0) == "W" && CardDir(-180.0) == "W"
  {
  }

  /** The name depends only on which of the four half-open intervals holds the angle. */
  lemma CardDirIntervals(angle: real)
    ensures CardDir(angle) == "E" <==> -45.0 <= angle < 45.0
    ensures CardDir(angle) == "N" <==> 45.0 <= angle < 135.0
    ensures CardDir(angle) == "W" <==> angle >= 135.0 || angle < -135.0
    ensures CardDir(angle) == "S" <==> -135.0 <= angle < -45.0
  {
  }

  // ---------------------------------------------------------------- writing rows

  datatype Point = Point(x: real, y: real)

  /**
   * One row of the cursor: the line's first and last point (longitude as x, latitude as y)
   * and the angle and direction-name fields, null until written.
   */
  datatype LinkRow = LinkRow(first: Point, last: Point, angle: Option<real>, dirName: Option<string>)

  /**
   * `get_card_angle`: the direction in degrees of travel from the first point to the last;
   * `degAtan2(y, x)` stands for `math.degrees(math.atan2(y, x))`.
   */
  function CardAngle(first: Point, last: Point, degAtan2: (real, real) -> real): real
  {
    degAtan2(last.y - first.y, last.x - first.x)
  }

  /** A row after the loop body: its own angle and that angle's direction name written, the points as they were. */
  function WithDirection(row: LinkRow, degAtan2: (real, real) -> real): (r: LinkRow)
    ensures r.first == row.first && r.last == row.last
    ensures r.angle.Some? && r.dirName == Some(CardDir(r.angle.value))
  {
    var a := CardAngle(row.first, row.last, degAtan2);
    row.(angle := Some(a), dirName := Some(CardDir(a)))
  }

  /** Writing a row twice writes what writing it once did: the fields depend on the points alone. */
  lemma WithDirectionIdempotent(row: LinkRow, degAtan2: (real, real) -> real)
    ensures WithDirection(WithDirection(row, degAtan2), degAtan2) == WithDirection(row, degAtan2)
  {
  }

  /**
   * `GetAngle.add_direction_data`: copy the input lines, then for each row of the copy
   * write its angle and its direction name, counting the rows.
   */
  method AddDirectionData(lineIn: array<LinkRow>, degAtan2: (real, real) -> real) returns (lineOut: array<LinkRow>, counter: nat)
    ensures fresh(lineOut) && lineOut.Length == lineIn.Length
    ensures counter == lineIn.Length
    ensures forall i :: 0 <= i < lineIn.Length ==> lineOut[i] == WithDirection(lineIn[i], degAtan2)
  {
    lineOut := new LinkRow[lineIn.Length](i reads lineIn requires 0 <= i < lineIn.Length => lineIn[i]);
    counter := 0;
    for i := 0 to lineOut.Length
      invariant counter == i
      invariant forall j :: 0 <= j < i ==> lineOut[j] == WithDirection(lineIn[j], degAtan2)
      invariant forall j :: i <= j < lineOut.Length ==> lineOut[j] == lineIn[j]
    {
      counter := counter + 1;
      var row := lineOut[i];
      var linkAngle := CardAngle(row.first, row.last, degAtan2);
      var linkDir := CardDir(linkAngle);
      lineOut[i] := row.(angle := Some(linkAngle), dirName := Some(linkDir));
    }
  }

  /** `add_angle_data` (no-copy version): the same per-row writes, made on the input table itself. */
  method AddAngleData(tmcs: array<LinkRow>, degAtan2: (real, real) -> real) returns (counter: nat)
    modifies tmcs
    ensures counter == tmcs.Length
    ensures forall i :: 0 <= i < tmcs.Length ==> tmcs[i] == WithDirection(old(tmcs[i]), degAtan2)
  {
    counter := 0;
    for i := 0 to tmcs.Length
      invariant counter == i
      invariant forall j :: 0 <= j < i ==> tmcs[j] == WithDirection(old(tmcs[j]), degAtan2)
      invariant forall j :: i <= j < tmcs.Length ==> tmcs[j] == old(tmcs[j])
    {
      counter := counter + 1;
      var row := tmcs[i];
      var linkAngle := CardAngle(row.first, row.last, degAtan2);
      var dirName := CardDir(linkAngle);
      tmcs[i] := row.(angle := Some(linkAngle), dirName := Some(dirName));
    }
  }

  // ---------------------------------------------------------------- archived inline bucket

  /** A row of the archived cursor over the two fields [angle, direction name]. */
  datatype AngleRow = AngleRow(angle: real, dirName: Option<string>)

  /**
   * The archived `get_card_dir` as written: it buckets the first row's angle, then calls
   * `updateRow` on the feature class NAME, a string, so the first row raises and nothing is
   * written; an empty table passes.
   */
  method SetDirNamesAsWritten(rows: array<AngleRow>) returns (err: Option<PyError>)
    ensures err == if rows.Length == 0 then None else Some(AttributeError("updateRow"))
  {
    err := None;
    var i := 0;
    while i < rows.Length && err.None?
      invariant 0 <= i <= rows.Length
      invariant err == if i == 0 then None else Some(AttributeError("updateRow"))
      invariant err.Some? ==> i == 1
    {
      var row := rows[i];
      var dirName := CardDir(row.angle);
      row := row.(dirName := Some(dirName));
      err := Some(AttributeError("updateRow"));
      i := i + 1;
    }
  }

  /** The archived loop as intended (rows written through the cursor): each name set from its angle, the angle kept. */
  method SetDirNames(rows: array<AngleRow>)
    modifies rows
    ensures forall i :: 0 <= i < rows.Length ==>
      rows[i].angle == old(rows[i].angle) && rows[i].dirName == Some(CardDir(old(rows[i].angle)))
  {
    for i := 0 to rows.Length
      invariant forall j :: 0 <= j < i ==>
        rows[j].angle == old(rows[j].angle) && rows[j].dirName == Some(CardDir(old(rows[j].angle)))
      invariant forall j :: i <= j < rows.Length ==> rows[j] == old(rows[j])
    {
      var row := rows[i];
      var dirName := CardDir(row.angle);
      rows[i] := row.(dirName := Some(dirName));
    }
  }
}
