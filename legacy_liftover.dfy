/** The older liftover of `R2Dtool_rust/src/liftover.rs`: the entries of a transcript are
    walked in stored order and the first whose running width sum reaches the position holds
    the site (a `>=` test, so the position counts from 1 at a start and may equal a
    boundary); `run_liftover` reads lines into one reused buffer. */
module LegacyLiftover {
  import opened Wrappers
  import opened Text
  import opened Features

  /** The `MultiMap` of entries by id; every entry has `start <= end` (`end - start` is a
      `u64` subtraction). */
  predicate LiftReady(annotations: map<string, seq<Exon>>)
  {
    forall k :: k in annotations ==> AllWellFormed(annotations[k])
  }

  /** The entry reaching `position` and the distance `position - current_position` into
      it: the first entry whose running width sum is at least the position. */
  function Reach(exons: seq<Exon>, position: nat): (r: Option<(Exon, nat)>)
    requires AllWellFormed(exons)
    ensures r.Some? <==> |exons| > 0 && position <= SumWidths(exons)
    ensures r.Some? ==> r.value.0 in exons && r.value.1 <= Width(r.value.0)
    decreases |exons|
  {
    if |exons| == 0 then None
    else if Width(exons[0]) >= position then Some((exons[0], position))
    else
      assert forall i :: 0 <= i < |exons[1..]| ==> exons[1..][i] == exons[i + 1];
      Reach(exons[1..], position - Width(exons[0]))
  }

  /** `Reach` picks entry `j` exactly when the widths before it sum to less than the
      position (or `j` is the first entry) and the widths up to and including it reach it. */
  lemma {:induction false} ReachIsFirstReaching(exons: seq<Exon>, position: nat, j: nat)
    requires AllWellFormed(exons) && j < |exons|
    ensures AllWellFormed(exons[..j])
    ensures (j == 0 || SumWidths(exons[..j]) < position) && position <= SumWidths(exons[..j]) + Width(exons[j])
      ==> Reach(exons, position) == Some((exons[j], position - SumWidths(exons[..j])))
    decreases j
  {
    if j == 0 {
      assert exons[..0] == [];
    } else {
      var tail := exons[1..];
      SumWidthsPrefixHead(exons, j);
      if SumWidths(exons[..j]) < position && position <= SumWidths(exons[..j]) + Width(exons[j]) {
        assert tail[j - 1] == exons[j];
        ReachIsFirstReaching(tail, position - Width(exons[0]), j - 1);
        if j - 1 == 0 {
          assert tail[..0] == [];
        }
      }
    }
  }

  /** The outcome of the conversion: an output row, no row (`None`), or a `u64` underflow in
      the minus-strand formula. A build with overflow checks panics there; a release build
      wraps around and writes a coordinate near 2^64. */
  datatype Outcome = Row(text: string) | NoRow | Underflow

  /** The genomic value at distance `d` into `e`: `d + start` on "+", otherwise
      `end - d - 2`, which underflows when `end < d + 2`. */
  function LegacyGenomic(e: Exon, d: nat): (g: Option<nat>)
    ensures e.strand == "+" ==> g == Some(d + e.start)
    ensures e.strand != "+" ==> (g.None? <==> e.end < d + 2)
    ensures e.strand != "+" && g.Some? ==> g.value + d + 2 == e.end
  {
    if e.strand == "+" then Some(d + e.start)
    else if e.end >= d + 2 then Some(e.end - d - 2)
    else None
  }

  /** The row: the entry's sequence, g, g + 1, two empty fields, the entry's strand and the
      input fields from the third on, the id and position columns dropped. */
  function LegacyRow(e: Exon, g: nat, fields: seq<string>): string
    requires |fields| >= 2
  {
    Join([e.seqId, NatToDecimal(g), NatToDecimal(g + 1), "", "", e.strand, Join(fields[2..], '\t')], '\t')
  }

  /** `convert_transcriptomic_to_genomic_coordinates` (the position is parsed with `unwrap`,
      which the caller's own parse check makes safe). */
  function ConvertSpec(fields: seq<string>, annotations: map<string, seq<Exon>>): Outcome
    requires LiftReady(annotations)
    requires |fields| >= 4 ==> ParseU64(fields[1]).Some?
  {
    if |fields| < 4 then NoRow
    else
      var key := StripVersion(fields[0]);
      var position := ParseU64(fields[1]).value;
      if key !in annotations then NoRow
      else
        match Reach(annotations[key], position)
        case None => NoRow
        case Some((e, d)) =>
          match LegacyGenomic(e, d)
          case None => Underflow
          case Some(g) => Row(LegacyRow(e, g, fields))
  }

  /** A row comes out exactly when the line has four fields, its stripped id is known, the
      position is at most the total width, and the minus-strand formula does not underflow;
      the row starts with the reached entry's sequence and the value `d + start` on "+". */
  lemma ConvertDefinedness(fields: seq<string>, annotations: map<string, seq<Exon>>)
    requires LiftReady(annotations)
    requires |fields| >= 4 ==> ParseU64(fields[1]).Some?
    ensures ConvertSpec(fields, annotations) != NoRow <==>
      |fields| >= 4 && StripVersion(fields[0]) in annotations && |annotations[StripVersion(fields[0])]| > 0
      && ParseU64(fields[1]).value <= SumWidths(annotations[StripVersion(fields[0])])
    ensures ConvertSpec(fields, annotations) == Underflow <==>
      |fields| >= 4 && StripVersion(fields[0]) in annotations
      && var reached := Reach(annotations[StripVersion(fields[0])], ParseU64(fields[1]).value);
      reached.Some? && reached.value.0.strand != "+" && reached.value.0.end < reached.value.1 + 2
    ensures ConvertSpec(fields, annotations).Row? ==>
      var reached := Reach(annotations[StripVersion(fields[0])], ParseU64(fields[1]).value).value;
      reached.0.strand == "+" ==>
        ConvertSpec(fields, annotations).text == LegacyRow(reached.0, reached.1 + reached.0.start, fields)
  {
  }

  /** The exon loop: `current_position` accumulates widths, with an early return. */
  method Walk(exons: seq<Exon>, position: nat) returns (r: Option<(Exon, nat)>)
    requires AllWellFormed(exons)
    ensures r == Reach(exons, position)
  {
    var currentPosition := 0;
    var i := 0;
    while i < |exons|
      invariant 0 <= i <= |exons| && currentPosition <= position
      invariant Reach(exons, position) == Reach(exons[i..], position - currentPosition)
    {
      var exon := exons[i];
      var exonLength := exon.end - exon.start + 1;
      ReachStep(exons, i, position - currentPosition);
      assert exonLength == Width(exons[i]);
      if currentPosition + exonLength >= position {
        return Some((exon, position - currentPosition));
      }
      assert Reach(exons, position) == Reach(exons[i + 1..], position - (currentPosition + exonLength));
      currentPosition := currentPosition + exonLength;
      i := i + 1;
    }
    assert exons[i..] == [];
    return None;
  }

  /** One entry of the walk: the entry at `i` reaches the distance, or the walk moves on. */
  lemma ReachStep(exons: seq<Exon>, i: nat, distance: nat)
    requires AllWellFormed(exons) && i < |exons|
    ensures AllWellFormed(exons[i..]) && AllWellFormed(exons[i + 1..])
    ensures Reach(exons[i..], distance) ==
      if Width(exons[i]) >= distance then Some((exons[i], distance))
      else Reach(exons[i + 1..], distance - Width(exons[i]))
  {
    assert exons[i..][1..] == exons[i + 1..];
    assert exons[i..][0] == exons[i];
  }

  method Convert(siteFields: seq<string>, annotations: map<string, seq<Exon>>) returns (outcome: Outcome)
    requires LiftReady(annotations)
    requires |siteFields| >= 4 ==> ParseU64(siteFields[1]).Some?
    ensures outcome == ConvertSpec(siteFields, annotations)
  {
    if |siteFields| < 4 {
      return NoRow;
    }
    var transcriptId := StripVersion(siteFields[0]);
    var position := ParseU64(siteFields[1]).value;
    if transcriptId !in annotations {
      return NoRow;
    }
    var reached := Walk(annotations[transcriptId], position);
    if reached.None? {
      return NoRow;
    }
    var (exon, d) := reached.value;
    var genomicPosition := LegacyGenomic(exon, d);
    if genomicPosition.None? {
      return Underflow;
    }
    return Row(LegacyRow(exon, genomicPosition.value, siteFields));
  }

  // ---------------------------------------------------------------------------
  // run_liftover

  /** The output header: a fixed six-column prefix, then the input header's fields from the
      third on. */
  function HeaderOutput(header: string): string
    requires |Split(Trim(header), '\t')| >= 2
  {
    "chromosome\tstart\tend\tname\tscore\tstrand\t" + Join(Split(Trim(header), '\t')[2..], '\t')
  }

  /** What one processed buffer contributes: nothing when the position does not parse (the
      error goes to standard error), the row when conversion gives one. */
  function BufferOutput(fields: seq<string>, annotations: map<string, seq<Exon>>): seq<string>
    requires LiftReady(annotations) && |fields| >= 2
    requires ParseU64(fields[1]).Some? ==> ConvertSpec(fields, annotations) != Underflow
  {
    if ParseU64(fields[1]).None? then []
    else match ConvertSpec(fields, annotations)
      case Row(text) => [text]
      case _ => []
  }

  /** The buffer is skipped: there is a header and its first field is "transcript". */
  predicate Skipped(buffer: string, hasHeader: bool)
  {
    hasHeader && Split(Trim(buffer), '\t')[0] == "transcript"
  }

  /** A buffer the loop body can handle without panicking: a second field and, when its
      position parses, no underflow. */
  predicate BufferSafe(buffer: string, annotations: map<string, seq<Exon>>)
    requires LiftReady(annotations)
  {
    var fields := Split(Trim(buffer), '\t');
    |fields| >= 2 && (ParseU64(fields[1]).Some? ==> ConvertSpec(fields, annotations) != Underflow)
  }

  /** A buffer the loop body can handle: a skipped one, or a safe one. */
  predicate LineSafe(buffer: string, annotations: map<string, seq<Exon>>, hasHeader: bool)
    requires LiftReady(annotations)
  {
    !Skipped(buffer, hasHeader) ==> BufferSafe(buffer, annotations)
  }

  /** One turn of the loop on the buffer (the line just appended): a skipped buffer is kept
      and writes nothing; any other is processed and cleared. The result is the buffer the
      next `read_line` appends to, and what was written. */
  function Turn(buffer: string, annotations: map<string, seq<Exon>>, hasHeader: bool): (string, seq<string>)
    requires LiftReady(annotations) && LineSafe(buffer, annotations, hasHeader)
  {
    if Skipped(buffer, hasHeader) then (buffer, [])
    else ("", BufferOutput(Split(Trim(buffer), '\t'), annotations))
  }

  /** Every buffer the loop processes is safe, starting from `buffer`. */
  predicate LoopSafe(buffer: string, lines: seq<string>, annotations: map<string, seq<Exon>>, hasHeader: bool)
    requires LiftReady(annotations)
    decreases |lines|
  {
    |lines| == 0 ||
      (LineSafe(buffer + lines[0], annotations, hasHeader)
       && LoopSafe(Turn(buffer + lines[0], annotations, hasHeader).0, lines[1..], annotations, hasHeader))
  }

  /** The `while read_line` loop as written: `read_line` appends each line to the buffer,
      and a skipped line is `continue`d past before `line.clear()`, so it stays there. */
  function LoopOutput(buffer: string, lines: seq<string>, annotations: map<string, seq<Exon>>, hasHeader: bool): seq<string>
    requires LiftReady(annotations) && LoopSafe(buffer, lines, annotations, hasHeader)
    decreases |lines|
  {
    if |lines| == 0 then []
    else
      var t := Turn(buffer + lines[0], annotations, hasHeader);
      t.1 + LoopOutput(t.0, lines[1..], annotations, hasHeader)
  }

  /** `run_liftover` on the raw lines of the input (each with its line terminator). */
  function LiftoverOutput(lines: seq<string>, annotations: map<string, seq<Exon>>, hasHeader: bool): seq<string>
    requires LiftReady(annotations)
    requires hasHeader ==> |lines| > 0 && |Split(Trim(lines[0]), '\t')| >= 2
    requires LoopSafe("", if hasHeader then lines[1..] else lines, annotations, hasHeader)
  {
    if hasHeader then [HeaderOutput(lines[0])] + LoopOutput("", lines[1..], annotations, true)
    else LoopOutput("", lines, annotations, false)
  }

  /** The loop body on the current buffer: the decision to skip, and what is written. */
  method ProcessBuffer(line: string, annotations: map<string, seq<Exon>>, hasHeader: bool)
    returns (skip: bool, written: seq<string>)
    requires LiftReady(annotations) && LineSafe(line, annotations, hasHeader)
    ensures skip == Skipped(line, hasHeader)
    ensures Turn(line, annotations, hasHeader) == (if skip then line else "", written)
  {
    var siteFields := Split(Trim(line), '\t');
    if hasHeader && siteFields[0] == "transcript" {
      return true, [];
    }
    skip := false;
    written := [];
    if ParseU64(siteFields[1]).Some? {
      var outcome := Convert(siteFields, annotations);
      if outcome.Row? {
        written := [outcome.text];
      }
    }
  }

  /** The `while read_line` loop over one reused buffer. */
  method LiftLines(lines: seq<string>, annotations: map<string, seq<Exon>>, hasHeader: bool)
    returns (output: seq<string>)
    requires LiftReady(annotations) && LoopSafe("", lines, annotations, hasHeader)
    ensures output == LoopOutput("", lines, annotations, hasHeader)
  {
    output := [];
    var line := "";
    var i := 0;
    ghost var total := LoopOutput("", lines, annotations, hasHeader);
    assert lines[0..] == lines;
    while i < |lines|
      invariant 0 <= i <= |lines|
      invariant LoopSafe(line, lines[i..], annotations, hasHeader)
      invariant output + LoopOutput(line, lines[i..], annotations, hasHeader) == total
    {
      LoopStep(line, lines, i, annotations, hasHeader);
      var buffer := line + lines[i];
      ghost var outputBefore, lineBefore := output, line;
      var skip, written := ProcessBuffer(buffer, annotations, hasHeader);
      if skip {
        line := buffer;
      } else {
        output := output + written;
        line := "";
      }
      LoopAdvance(lineBefore, lines, i, annotations, hasHeader, outputBefore, total, line, output);
      i := i + 1;
    }
  }

  /** The buffer the loop reads line `i` into is safe. */
  lemma LoopStep(buffer: string, lines: seq<string>, i: nat, annotations: map<string, seq<Exon>>, hasHeader: bool)
    requires LiftReady(annotations) && i < |lines| && LoopSafe(buffer, lines[i..], annotations, hasHeader)
    ensures LineSafe(buffer + lines[i], annotations, hasHeader)
  {
    assert lines[i..][0] == lines[i];
  }

  /** One turn of the loop on line `i`: the buffer is safe, and the output is what this
      turn writes followed by what the rest of the input yields. */
  lemma LoopUnfold(buffer: string, lines: seq<string>, i: nat, annotations: map<string, seq<Exon>>, hasHeader: bool)
    requires LiftReady(annotations) && i < |lines| && LoopSafe(buffer, lines[i..], annotations, hasHeader)
    ensures LineSafe(buffer + lines[i], annotations, hasHeader)
    ensures var t := Turn(buffer + lines[i], annotations, hasHeader);
      && LoopSafe(t.0, lines[i + 1..], annotations, hasHeader)
      && LoopOutput(buffer, lines[i..], annotations, hasHeader) == t.1 + LoopOutput(t.0, lines[i + 1..], annotations, hasHeader)
  {
    assert lines[i..][1..] == lines[i + 1..];
    assert lines[i..][0] == lines[i];
  }

  /** One turn of the loop on line `i` keeps the loop's invariant: what is written so far plus
      what the rest of the input yields is the whole output. */
  lemma LoopAdvance(buffer: string, lines: seq<string>, i: nat, annotations: map<string, seq<Exon>>, hasHeader: bool,
                    before: seq<string>, total: seq<string>, nextBuffer: string, after: seq<string>)
    requires LiftReady(annotations) && i < |lines| && LoopSafe(buffer, lines[i..], annotations, hasHeader)
    requires before + LoopOutput(buffer, lines[i..], annotations, hasHeader) == total
    requires LineSafe(buffer + lines[i], annotations, hasHeader)
    requires nextBuffer == Turn(buffer + lines[i], annotations, hasHeader).0
    requires after == before + Turn(buffer + lines[i], annotations, hasHeader).1
    ensures LoopSafe(nextBuffer, lines[i + 1..], annotations, hasHeader)
    ensures after + LoopOutput(nextBuffer, lines[i + 1..], annotations, hasHeader) == total
  {
    LoopUnfold(buffer, lines, i, annotations, hasHeader);
    var t := Turn(buffer + lines[i], annotations, hasHeader);
    AppendShift(before, t.1, LoopOutput(nextBuffer, lines[i + 1..], annotations, hasHeader), total, after);
  }

  method RunLiftover(lines: seq<string>, annotations: map<string, seq<Exon>>, hasHeader: bool)
    returns (output: seq<string>)
    requires LiftReady(annotations)
    requires hasHeader ==> |lines| > 0 && |Split(Trim(lines[0]), '\t')| >= 2
    requires LoopSafe("", if hasHeader then lines[1..] else lines, annotations, hasHeader)
    ensures output == LiftoverOutput(lines, annotations, hasHeader)
  {
    if hasHeader {
      var body := LiftLines(lines[1..], annotations, true);
      output := [HeaderOutput(lines[0])] + body;
    } else {
      output := LiftLines(lines, annotations, false);
    }
  }

  // ---------------------------------------------------------------------------
  // the reused buffer

  /** A text whose first character is not blank keeps every character up to its last
      non-blank one under `trim`. */
  lemma TrimKeepsPrefix(s: string, j: nat)
    requires j < |s| && !IsWhitespace(s[0]) && !IsWhitespace(s[j])
    ensures |Trim(s)| > j && Trim(s)[..j + 1] == s[..j + 1]
  {
    TrimShape(s);
    assert TrimStart(s) == s;
    assert LeadingWhitespace(s) == 0;
  }

  /** A buffer starting "transcript", a tab, and some non-blank text has "transcript" as its
      first field, whatever follows. */
  lemma TranscriptFirstField(s: string, j: nat)
    requires 11 <= j < |s| && s[..11] == "transcript\t" && !IsWhitespace(s[j])
    ensures Split(Trim(s), '\t')[0] == "transcript"
  {
    assert s[0] == s[..11][0] == 't';
    TrimKeepsPrefix(s, j);
    var t := Trim(s);
    assert t[..11] == "transcript\t" by { assert t[..11] == t[..j + 1][..11]; }
    forall i | 0 <= i < 10 ensures t[i] != '\t' {
      assert t[i] == t[..11][i];
    }
    assert t[10] == t[..11][10];
    IndexOfAt(t, '\t', 10);
    SplitFirstPiece(t, '\t');
    assert t[..10] == t[..11][..10];
  }

  /** Once a skipped "transcript" line is in the buffer, it never leaves: with a header, no
      later line produces any output. */
  lemma {:induction false} StuckAfterTranscriptLine(buffer: string, j: nat, lines: seq<string>, annotations: map<string, seq<Exon>>)
    requires LiftReady(annotations)
    requires 11 <= j < |buffer| && buffer[..11] == "transcript\t" && !IsWhitespace(buffer[j])
    ensures LoopSafe(buffer, lines, annotations, true)
    ensures LoopOutput(buffer, lines, annotations, true) == []
    decreases |lines|
  {
    if |lines| > 0 {
      var b := buffer + lines[0];
      assert b[..11] == buffer[..11] && b[j] == buffer[j];
      TranscriptFirstField(b, j);
      StuckAfterTranscriptLine(b, j, lines[1..], annotations);
    }
  }

  /** A header line repeated as the first line after the header, such as
      "transcript\tposition\t...": every data line after it is lost. */
  lemma RepeatedHeaderDropsData(header: string, data: seq<string>, annotations: map<string, seq<Exon>>)
    requires LiftReady(annotations)
    requires |header| > 11 && header[..11] == "transcript\t" && !IsWhitespace(header[11])
    ensures LoopSafe("", [header] + data, annotations, true)
    ensures LoopOutput("", [header] + data, annotations, true) == []
  {
    var lines := [header] + data;
    assert "" + header == header;
    TranscriptFirstField(header, 11);
    StuckAfterTranscriptLine(header, 11, data, annotations);
    assert lines[0] == header && lines[1..] == data;
  }

  /** The same on a concrete file body: the repeated header and the line "t1\t50\t..." give
      no output. */
  lemma RepeatedHeaderExample(annotations: map<string, seq<Exon>>)
    requires LiftReady(annotations)
    ensures LoopSafe("", ["transcript\tposition\tname\tscore\n", "t1\t50\tx\ty\n"], annotations, true)
    ensures LoopOutput("", ["transcript\tposition\tname\tscore\n", "t1\t50\tx\ty\n"], annotations, true) == []
  {
    var header := "transcript\tposition\tname\tscore\n";
    assert !IsWhitespace('p');
    assert header[..11] == "transcript\t" && header[11] == 'p';
    RepeatedHeaderDropsData(header, ["t1\t50\tx\ty\n"], annotations);
    assert [header] + ["t1\t50\tx\ty\n"] == ["transcript\tposition\tname\tscore\n", "t1\t50\tx\ty\n"];
  }

  // ---------------------------------------------------------------------------
  // the loop with the buffer cleared before `continue`

  /** What one line contributes on its own; a line the loop body would panic on is never
      reached by the loop below, which requires every line to be safe. */
  function LineOutput(line: string, annotations: map<string, seq<Exon>>, hasHeader: bool): seq<string>
  {
    if LiftReady(annotations) && LineSafe(line, annotations, hasHeader) then Turn(line, annotations, hasHeader).1 else []
  }

  predicate LinesSafe(lines: seq<string>, annotations: map<string, seq<Exon>>, hasHeader: bool)
    requires LiftReady(annotations)
  {
    forall i :: 0 <= i < |lines| ==> LineSafe(lines[i], annotations, hasHeader)
  }

  /** The evidently intended loop output: each line handled on its own, in order. */
  function LinesOutputCleared(lines: seq<string>, annotations: map<string, seq<Exon>>, hasHeader: bool): seq<string>
  {
    ConcatMap(lines, line => LineOutput(line, annotations, hasHeader))
  }

  /** With the buffer cleared, the output of a concatenation is the concatenation of the
      outputs: a skipped line has no effect on the lines after it. */
  lemma LinesOutputClearedAppend(a: seq<string>, b: seq<string>, annotations: map<string, seq<Exon>>, hasHeader: bool)
    ensures LinesOutputCleared(a + b, annotations, hasHeader)
      == LinesOutputCleared(a, annotations, hasHeader) + LinesOutputCleared(b, annotations, hasHeader)
  {
    ConcatMapAppend(a, b, line => LineOutput(line, annotations, hasHeader));
  }

  /** The loop of `run_liftover` with `line.clear()` also before `continue`. */
  method LiftLinesCleared(lines: seq<string>, annotations: map<string, seq<Exon>>, hasHeader: bool)
    returns (output: seq<string>)
    requires LiftReady(annotations) && LinesSafe(lines, annotations, hasHeader)
    ensures output == LinesOutputCleared(lines, annotations, hasHeader)
  {
    output := [];
    var line := "";
    var i := 0;
    assert lines[..0] == [];
    while i < |lines|
      invariant 0 <= i <= |lines| && line == ""
      invariant output == LinesOutputCleared(lines[..i], annotations, hasHeader)
    {
      assert lines[..i + 1][..i] == lines[..i];
      line := line + lines[i];
      assert line == lines[i];
      var skip, written := ProcessBuffer(line, annotations, hasHeader);
      assert written == LineOutput(lines[i], annotations, hasHeader);
      i := i + 1;
      if skip {
        line := "";
        continue;
      }
      output := output + written;
      line := "";
    }
    assert lines[..i] == lines;
  }
}
