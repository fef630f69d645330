/** The liftover of `src/liftover.rs`: a transcript-relative position (0-based, counted along
    the transcript from its 5' end) is mapped onto a genomic coordinate by walking the
    transcript's stored entries in strand order. */
module Liftover {
  import opened Wrappers
  import opened Text
  import opened Features
  import opened ParseGtf

  /** The liftover needs every entry to satisfy 1 <= start <= end: then neither the width,
      nor either strand formula, can underflow. */
  predicate LiftableEntries(exons: seq<Exon>)
  {
    AllWellFormed(exons) && forall i :: 0 <= i < |exons| ==> 1 <= exons[i].start
  }

  predicate LiftableAnnotation(annotations: map<string, Transcript>)
  {
    forall k :: k in annotations ==> LiftableEntries(annotations[k].exons)
  }

  /** The walk order: descending start on "-", ascending otherwise (including "."). */
  function WalkOrder(t: Transcript): (exons: seq<Exon>)
    ensures OrderedByStart(exons, t.strand == Some("-"))
    ensures multiset(exons) == multiset(t.exons)
  {
    SortByStart(t.exons, t.strand == Some("-"))
  }

  lemma WalkOrderLiftable(t: Transcript)
    requires LiftableEntries(t.exons)
    ensures LiftableEntries(WalkOrder(t)) && AllWellFormed(WalkOrder(t)) && AllWellFormed(t.exons)
    ensures SumWidths(WalkOrder(t)) == SumWidths(t.exons)
  {
    var w := WalkOrder(t);
    forall i | 0 <= i < |w| ensures 1 <= w[i].start <= w[i].end {
      assert w[i] in multiset(t.exons) by { assert w[i] in multiset(w); }
      var j :| 0 <= j < |t.exons| && t.exons[j] == w[i];
    }
  }

  /** The entry holding `position` and the offset into it: the first entry whose running width
      sum exceeds the position. */
  function Locate(exons: seq<Exon>, position: nat): (r: Option<(Exon, nat)>)
    requires AllWellFormed(exons)
    ensures r.Some? <==> position < SumWidths(exons)
    ensures r.Some? ==> r.value.0 in exons && r.value.1 < Width(r.value.0)
    decreases |exons|
  {
    if |exons| == 0 then None
    else if Width(exons[0]) > position then Some((exons[0], position))
    else
      assert forall i :: 0 <= i < |exons[1..]| ==> exons[1..][i] == exons[i + 1];
      Locate(exons[1..], position - Width(exons[0]))
  }

  /** `Locate` finds entry `j` exactly when the widths before `j` sum to at most the position
      and the widths up to and including `j` sum to more. */
  lemma {:induction false} LocateIsFirstContaining(exons: seq<Exon>, position: nat, j: nat)
    requires AllWellFormed(exons) && j < |exons|
    ensures AllWellFormed(exons[..j])
    ensures SumWidths(exons[..j]) <= position < SumWidths(exons[..j]) + Width(exons[j])
      ==> Locate(exons, position) == Some((exons[j], position - SumWidths(exons[..j])))
    decreases j
  {
    if j > 0 {
      var tail := exons[1..];
      assert tail[..j - 1] == exons[..j][1..];
      assert tail[j - 1] == exons[j];
      LocateIsFirstContaining(tail, position - Width(exons[0]) + (if position < Width(exons[0]) then Width(exons[0]) else 0), j - 1);
      if SumWidths(exons[..j]) <= position < SumWidths(exons[..j]) + Width(exons[j]) {
        assert SumWidths(exons[..j]) == Width(exons[0]) + SumWidths(tail[..j - 1]);
        LocateIsFirstContaining(tail, position - Width(exons[0]), j - 1);
      }
    } else {
      assert exons[..0] == [];
    }
  }

  /** The genomic coordinate of `offset` within `e`: `start + offset - 1` on "+", and
      `end - offset - 1` on every other strand, "." included. */
  function GenomicPosition(e: Exon, offset: nat, strand: Option<string>): (g: nat)
    requires 1 <= e.start <= e.end && offset < Width(e)
    ensures e.start - 1 <= g <= e.end - 1
    ensures strand == Some("+") ==> g + 1 == e.start + offset
    ensures strand != Some("+") ==> g + 1 + offset == e.end
  {
    if strand == Some("+") then offset + e.start - 1 else e.end - offset - 1
  }

  /** The output row: chromosome, g, g + 1, two empty fields, the strand, then every field of
      the input line. */
  function OutputRow(t: Transcript, g: nat, fields: seq<string>): seq<string>
  {
    [t.chromosome, NatToDecimal(g), NatToDecimal(g + 1), "", "", t.strand.GetOr("")] + fields
  }

  /** The transcript a line names, if the line has four fields, a position and a known id. */
  function SiteTranscript(fields: seq<string>, annotations: map<string, Transcript>, hasVersion: bool): Option<(Transcript, nat)>
  {
    if |fields| < 4 then None
    else
      var id := if hasVersion then fields[0] else StripVersion(fields[0]);
      var position := ParseU64(fields[1]);
      if position.None? || id !in annotations then None
      else Some((annotations[id], position.value))
  }

  /** The genomic coordinate of `position` when the entries are walked in the given order. */
  function LiftWithin(exons: seq<Exon>, position: nat, strand: Option<string>): (g: Option<nat>)
    requires LiftableEntries(exons)
    ensures g.Some? <==> position < SumWidths(exons)
    ensures g.Some? ==> exists i :: 0 <= i < |exons| && exons[i].start - 1 <= g.value <= exons[i].end - 1
  {
    match Locate(exons, position)
    case None => None
    case Some((e, offset)) =>
      LiftableMember(exons, e);
      Some(GenomicPosition(e, offset, strand))
  }

  /** An entry of a liftable list is liftable, and marks a place inside the list. */
  lemma LiftableMember(exons: seq<Exon>, e: Exon)
    requires LiftableEntries(exons) && e in exons
    ensures 1 <= e.start <= e.end
    ensures exists i :: 0 <= i < |exons| && exons[i].start == e.start && exons[i].end == e.end
  {
    var i :| 0 <= i < |exons| && exons[i] == e;
  }

  /** The genomic start of the site on the line, if there is one. */
  function LiftSite(fields: seq<string>, annotations: map<string, Transcript>, hasVersion: bool): Option<nat>
    requires LiftableAnnotation(annotations)
  {
    match SiteTranscript(fields, annotations, hasVersion)
    case None => None
    case Some((t, position)) =>
      WalkOrderLiftable(t);
      LiftWithin(WalkOrder(t), position, t.strand)
  }

  /** `convert_transcriptomic_to_genomic_coordinates`, as a row of output fields. */
  function ConvertSpec(fields: seq<string>, annotations: map<string, Transcript>, hasVersion: bool): Option<seq<string>>
    requires LiftableAnnotation(annotations)
  {
    match LiftSite(fields, annotations, hasVersion)
    case None => None
    case Some(g) => Some(OutputRow(SiteTranscript(fields, annotations, hasVersion).value.0, g, fields))
  }

  /** The id a line is looked up under: its first field, without the version unless the
      annotation keeps versions. */
  function SiteId(fields: seq<string>, hasVersion: bool): string
    requires |fields| > 0
  {
    if hasVersion then fields[0] else StripVersion(fields[0])
  }

  /** A line names a transcript exactly when it has at least four fields, its second parses
      as a `u64` and its id is annotated. */
  lemma SiteTranscriptDefinedness(fields: seq<string>, annotations: map<string, Transcript>, hasVersion: bool)
    ensures SiteTranscript(fields, annotations, hasVersion).Some? <==>
      |fields| >= 4 && ParseU64(fields[1]).Some? && SiteId(fields, hasVersion) in annotations
    ensures SiteTranscript(fields, annotations, hasVersion).Some? ==>
      SiteTranscript(fields, annotations, hasVersion).value
        == (annotations[SiteId(fields, hasVersion)], ParseU64(fields[1]).value)
  {
  }

  /** A row is produced exactly when the line names a transcript and the position is below the
      summed widths of that transcript's entries; the genomic start then lies within one of
      those entries. */
  lemma {:induction false} ConvertDefinedness(fields: seq<string>, annotations: map<string, Transcript>, hasVersion: bool)
    requires LiftableAnnotation(annotations)
    requires SiteTranscript(fields, annotations, hasVersion).Some?
    ensures var t := SiteTranscript(fields, annotations, hasVersion).value.0;
      var position := SiteTranscript(fields, annotations, hasVersion).value.1;
      AllWellFormed(t.exons) &&
      (ConvertSpec(fields, annotations, hasVersion).Some? <==> position < SumWidths(t.exons))
    ensures LiftSite(fields, annotations, hasVersion).Some? ==>
      var t := SiteTranscript(fields, annotations, hasVersion).value.0;
      exists i :: 0 <= i < |t.exons| && t.exons[i].start - 1 <= LiftSite(fields, annotations, hasVersion).value <= t.exons[i].end - 1
  {
    var (t, position) := SiteTranscript(fields, annotations, hasVersion).value;
    WalkOrderLiftable(t);
    var w := WalkOrder(t);
    var g := LiftWithin(w, position, t.strand);
    assert LiftSite(fields, annotations, hasVersion) == g;
    if g.Some? {
      var i :| 0 <= i < |w| && w[i].start - 1 <= g.value <= w[i].end - 1;
      WithinPermutation(w, t.exons, g.value, i);
    }
  }

  /** A coordinate inside an entry of the walk order is inside an entry of the transcript. */
  lemma WithinPermutation(w: seq<Exon>, exons: seq<Exon>, g: nat, i: nat)
    requires multiset(w) == multiset(exons) && i < |w| && w[i].start - 1 <= g <= w[i].end - 1
    ensures exists j :: 0 <= j < |exons| && exons[j].start - 1 <= g <= exons[j].end - 1
  {
    assert w[i] in multiset(exons) by { assert w[i] in multiset(w); }
    var j :| 0 <= j < |exons| && exons[j] == w[i];
  }

  /** The example single exon 100..200: position 50 maps to 149 on either strand. */
  lemma SingleExonExample(t: Transcript, fields: seq<string>, annotations: map<string, Transcript>)
    requires t.exons == [Exon("chr1", "src", "exon", 100, 200, 101, "+", map[], Some("exon"))]
    requires t.strand == Some("+") || t.strand == Some("-")
    requires fields == ["tx1", "50", "a", "b"] && annotations == map["tx1" := t]
    ensures LiftSite(fields, annotations, true) == Some(149)
  {
    var e := t.exons[0];
    assert ParseU64("50") == Some(50) by {
      assert "50"[..1] == "5";
      assert DigitsValue("5") == 5;
    }
    assert SiteTranscript(fields, annotations, true) == Some((t, 50));
    assert WalkOrder(t) == [e];
    assert Locate([e], 50) == Some((e, 50));
  }

  /** The exon walk of `convert_transcriptomic_to_genomic_coordinates`, with its early return. */
  method Walk(exons: seq<Exon>, position: nat, strand: Option<string>) returns (g: Option<nat>)
    requires LiftableEntries(exons)
    ensures g == LiftWithin(exons, position, strand)
  {
    var currentPosition := 0;
    var i := 0;
    while i < |exons|
      invariant 0 <= i <= |exons|
      invariant currentPosition <= position
      invariant Locate(exons, position) == Locate(exons[i..], position - currentPosition)
    {
      var exonData := exons[i];
      LocateStep(exons, i, position - currentPosition);
      var exonLength := exonData.end - exonData.start + 1;
      assert exonLength == Width(exons[i]);
      if currentPosition + exonLength > position {
        var offset := position - currentPosition;
        LiftWithinAt(exons, position, strand, exonData, offset);
        var genomicPosition := EntryCoordinate(exonData, offset, strand);
        return Some(genomicPosition);
      }
      assert Locate(exons, position) == Locate(exons[i + 1..], position - (currentPosition + exonLength));
      currentPosition := currentPosition + exonLength;
      i := i + 1;
    }
    assert exons[i..] == [];
    return None;
  }

  /** The strand formula of the walk on the entry holding the site. */
  method EntryCoordinate(exonData: Exon, offset: nat, strand: Option<string>) returns (genomicPosition: nat)
    requires 1 <= exonData.start <= exonData.end && offset < Width(exonData)
    ensures genomicPosition == GenomicPosition(exonData, offset, strand)
  {
    genomicPosition := if strand == Some("+") then
      offset + exonData.start - 1
    else
      exonData.end - offset - 1;
  }

  /** The coordinate `LiftWithin` gives when `Locate` finds entry `e`. */
  lemma LiftWithinAt(exons: seq<Exon>, position: nat, strand: Option<string>, e: Exon, offset: nat)
    requires LiftableEntries(exons) && Locate(exons, position) == Some((e, offset))
    ensures 1 <= e.start <= e.end && offset < Width(e)
    ensures LiftWithin(exons, position, strand) == Some(GenomicPosition(e, offset, strand))
  {
    var i :| 0 <= i < |exons| && exons[i] == e;
  }

  /** One entry of the walk: the entry at `i` holds the offset, or the walk moves past it. */
  lemma LocateStep(exons: seq<Exon>, i: nat, offset: nat)
    requires AllWellFormed(exons) && i < |exons|
    ensures AllWellFormed(exons[i..]) && AllWellFormed(exons[i + 1..])
    ensures Locate(exons[i..], offset) ==
      if Width(exons[i]) > offset then Some((exons[i], offset))
      else Locate(exons[i + 1..], offset - Width(exons[i]))
  {
    assert exons[i..][1..] == exons[i + 1..];
    assert exons[i..][0] == exons[i];
  }

  /** The front of `convert_transcriptomic_to_genomic_coordinates`: the field count check,
      the id, the position parse and the lookup, each returning `None` on failure. */
  method FindSite(siteFields: seq<string>, annotations: map<string, Transcript>, hasVersion: bool)
    returns (site: Option<(Transcript, nat)>)
    ensures site == SiteTranscript(siteFields, annotations, hasVersion)
  {
    if |siteFields| < 4 {
      return None;
    }
    var transcriptIdWithVersion := siteFields[0];
    var transcriptId := if hasVersion then transcriptIdWithVersion else StripVersion(transcriptIdWithVersion);
    var parsed := ParseU64(siteFields[1]);
    if parsed.None? {
      return None;
    }
    if transcriptId !in annotations {
      return None;
    }
    return Some((annotations[transcriptId], parsed.value));
  }

  /** `convert_transcriptomic_to_genomic_coordinates`. */
  method Convert(siteFields: seq<string>, annotations: map<string, Transcript>, hasVersion: bool)
    returns (result: Option<seq<string>>)
    requires LiftableAnnotation(annotations)
    ensures result == ConvertSpec(siteFields, annotations, hasVersion)
  {
    var site := FindSite(siteFields, annotations, hasVersion);
    if site.None? {
      return None;
    }
    var (transcript, position) := site.value;
    var exons := SortByStart(transcript.exons, transcript.strand == Some("-"));
    WalkOrderLiftable(transcript);
    var genomicPosition := Walk(exons, position, transcript.strand);
    assert LiftSite(siteFields, annotations, hasVersion) == genomicPosition;
    if genomicPosition.None? {
      return None;
    }
    var g := genomicPosition.value;
    return Some([transcript.chromosome, NatToDecimal(g), NatToDecimal(g + 1),
      "", "", transcript.strand.GetOr("")] + siteFields);
  }

  // ---------------------------------------------------------------------------
  // run_liftover

  const HeaderPrefix: string := "chromosome\tstart\tend\tname\tscore\tstrand\t"

  /** The output of one data line: nothing for a "transcript" line when there is a header, the
      joined row when the conversion succeeds, and nothing otherwise. */
  function LineOutput(line: string, annotations: map<string, Transcript>, hasHeader: bool, hasVersion: bool): seq<string>
    requires LiftableAnnotation(annotations)
  {
    var siteFields := Split(Trim(line), '\t');
    if hasHeader && siteFields[0] == "transcript" then []
    else match ConvertSpec(siteFields, annotations, hasVersion)
      case Some(row) => [Join(row, '\t')]
      case None => []
  }

  function LinesOutput(lines: seq<string>, annotations: map<string, Transcript>, hasHeader: bool, hasVersion: bool): (out: seq<string>)
    requires LiftableAnnotation(annotations)
    ensures |out| <= |lines|
    decreases |lines|
  {
    if |lines| == 0 then []
    else
      LinesOutput(lines[..|lines| - 1], annotations, hasHeader, hasVersion)
        + LineOutput(lines[|lines| - 1], annotations, hasHeader, hasVersion)
  }

  /** `run_liftover` on the lines of the input file: with a header, its first line (or an
      empty one) is re-emitted behind the fixed six-column prefix, and the other lines follow. */
  function LiftoverOutput(lines: seq<string>, annotations: map<string, Transcript>, hasHeader: bool, hasVersion: bool): seq<string>
    requires LiftableAnnotation(annotations)
  {
    if hasHeader then
      var header := if |lines| > 0 then lines[0] else "";
      [HeaderPrefix + Trim(header)] + LinesOutput(if |lines| > 0 then lines[1..] else [], annotations, hasHeader, hasVersion)
    else LinesOutput(lines, annotations, hasHeader, hasVersion)
  }

  /** The handling of one data line in `run_liftover`. */
  method LiftLine(line: string, annotations: map<string, Transcript>, hasHeader: bool, hasVersion: bool)
    returns (output: seq<string>)
    requires LiftableAnnotation(annotations)
    ensures output == LineOutput(line, annotations, hasHeader, hasVersion)
  {
    var siteFields := Split(Trim(line), '\t');
    if hasHeader && siteFields[0] == "transcript" {
      return [];
    }
    var converted := Convert(siteFields, annotations, hasVersion);
    if converted.Some? {
      return [Join(converted.value, '\t')];
    }
    return [];
  }

  lemma LinesOutputStep(lines: seq<string>, i: nat, annotations: map<string, Transcript>, hasHeader: bool, hasVersion: bool)
    requires LiftableAnnotation(annotations) && i < |lines|
    ensures LinesOutput(lines[..i + 1], annotations, hasHeader, hasVersion)
      == LinesOutput(lines[..i], annotations, hasHeader, hasVersion) + LineOutput(lines[i], annotations, hasHeader, hasVersion)
  {
    assert lines[..i + 1][..i] == lines[..i];
  }

  /** The line loop of `run_liftover`, in input order. */
  method LiftLines(lines: seq<string>, annotations: map<string, Transcript>, hasHeader: bool, hasVersion: bool)
    returns (output: seq<string>)
    requires LiftableAnnotation(annotations)
    ensures output == LinesOutput(lines, annotations, hasHeader, hasVersion)
  {
    output := [];
    var i := 0;
    while i < |lines|
      invariant 0 <= i <= |lines|
      invariant output == LinesOutput(lines[..i], annotations, hasHeader, hasVersion)
    {
      var lineOutput := LiftLine(lines[i], annotations, hasHeader, hasVersion);
      LinesOutputStep(lines, i, annotations, hasHeader, hasVersion);
      output := output + lineOutput;
      i := i + 1;
    }
    assert lines[..i] == lines;
  }

  /** `run_liftover`: the header line first when there is one, then the data lines. */
  method RunLiftover(lines: seq<string>, annotations: map<string, Transcript>, hasHeader: bool, hasVersion: bool)
    returns (output: seq<string>)
    requires LiftableAnnotation(annotations)
    ensures output == LiftoverOutput(lines, annotations, hasHeader, hasVersion)
  {
    if hasHeader {
      var header := if |lines| > 0 then lines[0] else "";
      var body := LiftLines(if |lines| > 0 then lines[1..] else [], annotations, hasHeader, hasVersion);
      output := [HeaderPrefix + Trim(header)] + body;
    } else {
      output := LiftLines(lines, annotations, hasHeader, hasVersion);
    }
  }

  /** With a header, the first output line is the prefixed header, and a data line whose first
      field is "transcript" produces nothing. */
  lemma HeaderHandling(lines: seq<string>, annotations: map<string, Transcript>, hasVersion: bool, line: string)
    requires LiftableAnnotation(annotations)
    ensures LiftoverOutput(lines, annotations, true, hasVersion)[0]
      == HeaderPrefix + Trim(if |lines| > 0 then lines[0] else "")
    ensures Split(Trim(line), '\t')[0] == "transcript" ==> LineOutput(line, annotations, true, hasVersion) == []
  {
  }
}
