/** The meta-annotation of the older `R2Dtool_rust/src/annotate.rs`. Its
    `calculate_meta_coordinates`, `generate_splice_sites` and `splice_site_distances` are the
    same code as the current ones and are modelled once, in `Annotate`; what differs is the
    transcript map it reads (the older readers') and the five columns `run_annotate` appends:
    `rel_pos`, the two CDS offsets and the two junction distances, with -1 for a missing
    distance. */
module LegacyAnnotate {
  import opened Wrappers
  import opened Text
  import opened Features
  import opened Annotate
  import LegacyParseAnnotation

  /** The stored entries of every transcript of the older map, the only part
      `generate_splice_sites` reads. */
  function LegacyEntriesOf(transcripts: map<string, LegacyParseAnnotation.Transcript>): (m: map<string, seq<Exon>>)
    ensures m.Keys == transcripts.Keys
    ensures forall k :: k in m ==> m[k] == transcripts[k].exons
  {
    map k | k in transcripts :: transcripts[k].exons
  }

  /** The columns the header announces after the input's own. */
  const LegacyColumns: seq<string> := ["rel_pos", "abs_cds_start", "abs_cds_end",
    "upstream_ss_distance", "downstream_ss_distance"]

  /** The header line: the input header's fields, re-joined, then the five columns. */
  function LegacyHeaderLine(header: string): (h: string)
    ensures h == Trim(header) + "\t" + Join(LegacyColumns, '\t')
  {
    JoinSplit(Trim(header), '\t');
    Join(Split(Trim(header), '\t'), '\t') + "\t" + Join(LegacyColumns, '\t')
  }

  /** A distance as printed: the value, or -1 when there is none. */
  function DistanceOrMinusOne(v: Option<nat>): (n: int)
    ensures n >= -1 && (n == -1 <==> v.None?)
    ensures v.Some? ==> n == v.value
  {
    match v
    case Some(d) => d
    case None => -1
  }

  /** The five columns of a fully annotated line. */
  function LegacyFullCells(tx: nat, utr5: nat, cds: nat, utr3: nat, sites: seq<nat>): (cells: seq<Cell>)
    ensures |cells| == |LegacyColumns|
  {
    var meta := MetaCoordinates(tx, utr5, cds, utr3);
    var distances := Distances(tx, sites);
    [Relative(meta.0), Number(meta.1), Number(meta.2),
     Number(DistanceOrMinusOne(distances.0)), Number(DistanceOrMinusOne(distances.1))]
  }

  /** What the five columns say: `rel_pos`; the offsets from the CDS start and end, which
      differ by the CDS length; the distance on to the nearest junction after the position
      and back to the nearest one at or before it, each -1 exactly when there is no such
      junction. */
  lemma LegacyFullCellsMeaning(tx: nat, utr5: nat, cds: nat, utr3: nat, sites: seq<nat>)
    ensures var cells := LegacyFullCells(tx, utr5, cds, utr3, sites);
      && cells[0] == Relative(MetaCoordinates(tx, utr5, cds, utr3).0)
      && cells[1] == Number(tx - utr5) && cells[2] == Number(tx - (utr5 + cds))
      && cells[1].n - cells[2].n == cds
      && (cells[3] == Number(-1) <==> forall s :: s in sites ==> s <= tx)
      && (cells[3] != Number(-1) ==> cells[3].n >= 0 && IsUpstreamMin(tx, sites, cells[3].n))
      && (cells[4] == Number(-1) <==> forall s :: s in sites ==> s > tx)
      && (cells[4] != Number(-1) ==> cells[4].n >= 0 && IsDownstreamMin(tx, sites, cells[4].n))
  {
    DistancesAreNearest(tx, sites);
  }

  /** The five `NA` columns written when a line cannot be annotated. */
  const LegacyMissingCells: seq<Cell> := [NA, NA, NA, NA, NA]

  /** The columns the older `run_annotate` appends to one data line. */
  function LegacyAnnotateCells(line: string, transcripts: map<string, LegacyParseAnnotation.Transcript>,
                               spliceSites: map<string, seq<nat>>): seq<Cell>
    requires Annotatable(line)
  {
    var fields := Split(line, '\t');
    var transcriptId := StripVersion(fields[0]);
    var txCoord := ParseU64(fields[1]).value;
    if transcriptId !in transcripts then LegacyMissingCells
    else
      var t := transcripts[transcriptId];
      if t.utr5Len.None? || t.cdsLen.None? || t.utr3Len.None? then LegacyMissingCells
      else if transcriptId !in spliceSites then LegacyMissingCells
      else LegacyFullCells(txCoord, t.utr5Len.value, t.cdsLen.value, t.utr3Len.value, spliceSites[transcriptId])
  }

  /** A line gets the five computed columns exactly when its stripped id is annotated with all
      three lengths and has a splice entry, and five `NA`s otherwise: either way as many
      columns as the header announces. */
  lemma LegacyAnnotateCellsShape(line: string, transcripts: map<string, LegacyParseAnnotation.Transcript>,
                                 spliceSites: map<string, seq<nat>>)
    requires Annotatable(line)
    ensures var id := StripVersion(Split(line, '\t')[0]);
      var full := id in transcripts && transcripts[id].utr5Len.Some? && transcripts[id].cdsLen.Some?
        && transcripts[id].utr3Len.Some? && id in spliceSites;
      && (full ==>
            LegacyAnnotateCells(line, transcripts, spliceSites)
              == LegacyFullCells(ParseU64(Split(line, '\t')[1]).value, transcripts[id].utr5Len.value,
                   transcripts[id].cdsLen.value, transcripts[id].utr3Len.value, spliceSites[id]))
      && (!full ==> LegacyAnnotateCells(line, transcripts, spliceSites) == LegacyMissingCells)
    ensures |LegacyAnnotateCells(line, transcripts, spliceSites)| == |LegacyColumns|
  {
  }

  /** The columns of one data line, as the loop body of the older `run_annotate` computes them. */
  method LegacyAnnotateLine(line: string, transcripts: map<string, LegacyParseAnnotation.Transcript>,
                            spliceSites: map<string, seq<nat>>)
    returns (cells: seq<Cell>)
    requires Annotatable(line)
    ensures cells == LegacyAnnotateCells(line, transcripts, spliceSites)
  {
    var fields := Split(line, '\t');
    var transcriptId := StripVersion(fields[0]);
    var txCoord := ParseU64(fields[1]).value;
    if transcriptId in transcripts {
      var transcript := transcripts[transcriptId];
      if transcript.utr5Len.Some? && transcript.cdsLen.Some? && transcript.utr3Len.Some? {
        var utr5Len, cdsLen, utr3Len := transcript.utr5Len.value, transcript.cdsLen.value, transcript.utr3Len.value;
        var (relPos, absCdsStart, absCdsEnd) := MetaCoordinates(txCoord, utr5Len, cdsLen, utr3Len);
        if transcriptId in spliceSites {
          var upstreamSsDistance, downstreamSsDistance := SpliceSiteDistances(txCoord, spliceSites[transcriptId]);
          return [Relative(relPos), Number(absCdsStart), Number(absCdsEnd),
            Number(DistanceOrMinusOne(upstreamSsDistance)), Number(DistanceOrMinusOne(downstreamSsDistance))];
        }
      }
    }
    return LegacyMissingCells;
  }

  /** The definition of the annotated data lines: line `i` keeps its text and gets the
      columns `LegacyAnnotateCells` gives it. The loop of `LegacyAnnotateData` is proved
      against it. */
  function LegacyAnnotateLines(lines: seq<string>, transcripts: map<string, LegacyParseAnnotation.Transcript>,
                               spliceSites: map<string, seq<nat>>): (out: seq<OutputLine>)
    requires forall i :: 0 <= i < |lines| ==> Annotatable(lines[i])
    ensures |out| == |lines|
    ensures forall i :: 0 <= i < |lines| ==> out[i] == Annotated(lines[i], LegacyAnnotateCells(lines[i], transcripts, spliceSites))
  {
    seq(|lines|, i requires 0 <= i < |lines| => Annotated(lines[i], LegacyAnnotateCells(lines[i], transcripts, spliceSites)))
  }

  lemma LegacyAnnotateLinesStep(lines: seq<string>, i: nat, transcripts: map<string, LegacyParseAnnotation.Transcript>,
                                spliceSites: map<string, seq<nat>>)
    requires i < |lines| && forall k :: 0 <= k < |lines| ==> Annotatable(lines[k])
    ensures LegacyAnnotateLines(lines[..i + 1], transcripts, spliceSites)
      == LegacyAnnotateLines(lines[..i], transcripts, spliceSites)
         + [Annotated(lines[i], LegacyAnnotateCells(lines[i], transcripts, spliceSites))]
  {
  }

  /** The older `run_annotate` on the lines of the input file, given the annotation and the
      splice map built from it. */
  function LegacyAnnotateOutput(lines: seq<string>, transcripts: map<string, LegacyParseAnnotation.Transcript>,
                                spliceSites: map<string, seq<nat>>, hasHeader: bool): seq<OutputLine>
    requires forall i :: 0 <= i < |DataLines(lines, hasHeader)| ==> Annotatable(DataLines(lines, hasHeader)[i])
  {
    (if hasHeader then [Header(LegacyHeaderLine(if |lines| > 0 then lines[0] else ""))] else [])
      + LegacyAnnotateLines(DataLines(lines, hasHeader), transcripts, spliceSites)
  }

  /** The line loop of the older `run_annotate`. */
  method LegacyAnnotateData(data: seq<string>, transcripts: map<string, LegacyParseAnnotation.Transcript>,
                            spliceSites: map<string, seq<nat>>)
    returns (output: seq<OutputLine>)
    requires forall i :: 0 <= i < |data| ==> Annotatable(data[i])
    ensures output == LegacyAnnotateLines(data, transcripts, spliceSites)
  {
    output := [];
    var i := 0;
    while i < |data|
      invariant 0 <= i <= |data|
      invariant output == LegacyAnnotateLines(data[..i], transcripts, spliceSites)
    {
      var cells := LegacyAnnotateLine(data[i], transcripts, spliceSites);
      LegacyAnnotateLinesStep(data, i, transcripts, spliceSites);
      output := output + [Annotated(data[i], cells)];
      i := i + 1;
    }
    assert data[..i] == data;
  }

  /** The older `run_annotate`: builds the splice map from the older readers' transcripts,
      then annotates the header and each data line in order. */
  method LegacyRunAnnotate(lines: seq<string>, transcripts: map<string, LegacyParseAnnotation.Transcript>, hasHeader: bool)
    returns (spliceSites: map<string, seq<nat>>, output: seq<OutputLine>)
    requires SpliceReady(LegacyEntriesOf(transcripts))
    requires forall i :: 0 <= i < |DataLines(lines, hasHeader)| ==> Annotatable(DataLines(lines, hasHeader)[i])
    ensures IsSpliceMap(LegacyEntriesOf(transcripts), spliceSites)
    ensures output == LegacyAnnotateOutput(lines, transcripts, spliceSites, hasHeader)
  {
    spliceSites := GenerateSpliceSites(LegacyEntriesOf(transcripts));
    var header: seq<OutputLine> := [];
    if hasHeader {
      header := [Header(LegacyHeaderLine(if |lines| > 0 then lines[0] else ""))];
    }
    var body := LegacyAnnotateData(DataLines(lines, hasHeader), transcripts, spliceSites);
    output := header + body;
  }
}
