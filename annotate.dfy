/** The meta-annotation of `src/annotate.rs`: for a transcript-relative position, where it
    falls in the 5' UTR / CDS / 3' UTR layout of its transcript, how far it is from the CDS
    boundaries, and how far from the nearest splice junctions on either side. */
module Annotate {
  import opened Wrappers
  import opened Text
  import opened Features
  import opened ParseGtf

  // ---------------------------------------------------------------------------
  // calculate_tx_len / cds_start / cds_end / tx_end

  function TxLen(utr5: nat, cds: nat, utr3: nat): nat { utr5 + cds + utr3 + 3 }
  function CdsStart(utr5: nat): nat { utr5 }
  function CdsEnd(utr5: nat, cds: nat): nat { utr5 + cds }
  function TxEnd(utr5: nat, cds: nat, utr3: nat): nat { utr5 + cds + utr3 }

  // ---------------------------------------------------------------------------
  // calculate_meta_coordinates

  /** An `f64` result of the division, as far as the model needs it: a finite value (exact,
      without rounding), positive infinity (x / 0.0 with x > 0) or NaN (0.0 / 0.0). */
  datatype RelPos = Finite(value: real) | PosInfinity | NaN

  /** `a / b` on non-negative counts, with IEEE behaviour for a zero divisor. */
  function Ratio(a: nat, b: nat): (r: RelPos)
    ensures b > 0 ==> r.Finite? && 0.0 <= r.value
    ensures b > 0 && a < b ==> r.value < 1.0
    ensures b == 0 && a > 0 ==> r == PosInfinity
    ensures b == 0 && a == 0 ==> r == NaN
  {
    if b > 0 then
      var q := a as real / b as real;
      assert q * (b as real) == a as real;
      Finite(q)
    else if a > 0 then PosInfinity
    else NaN
  }

  function Shift(base: real, r: RelPos): RelPos
  {
    match r
    case Finite(v) => Finite(base + v)
    case PosInfinity => PosInfinity
    case NaN => NaN
  }

  /** `rel_pos`, `abs_cds_start` and `abs_cds_end`. */
  function MetaCoordinates(tx: nat, utr5: nat, cds: nat, utr3: nat): (r: (RelPos, int, int))
    ensures tx < CdsStart(utr5) ==> r.0.Finite? && 0.0 <= r.0.value < 1.0
    ensures CdsStart(utr5) <= tx < CdsEnd(utr5, cds) ==> r.0.Finite? && 1.0 <= r.0.value < 2.0
    ensures CdsEnd(utr5, cds) <= tx && utr3 > 0 ==> r.0.Finite? && 2.0 <= r.0.value
    ensures CdsEnd(utr5, cds) <= tx && utr3 > 0 ==> (r.0.value < 3.0 <==> tx < TxEnd(utr5, cds, utr3))
    ensures r.0.NaN? <==> utr3 == 0 && tx == CdsEnd(utr5, cds)
    ensures r.0.PosInfinity? <==> utr3 == 0 && tx > CdsEnd(utr5, cds)
    ensures r.1 - r.2 == cds
    ensures r.1 == tx - CdsStart(utr5) && r.2 == tx - CdsEnd(utr5, cds)
  {
    var cdsStart := utr5;
    var cdsEnd := utr5 + cds;
    var relPos :=
      if tx < cdsStart then Ratio(tx, cdsStart)
      else if tx < cdsEnd then Shift(1.0, Ratio(tx - utr5, cds))
      else Shift(2.0, Ratio(tx - utr5 - cds, utr3));
    assert CdsEnd(utr5, cds) <= tx && utr3 > 0 ==> (relPos.value < 3.0 <==> tx < TxEnd(utr5, cds, utr3)) by {
      if CdsEnd(utr5, cds) <= tx && utr3 > 0 {
        var a := tx - utr5 - cds;
        var q := a as real / utr3 as real;
        assert q * (utr3 as real) == a as real;
        if a >= utr3 {
          DivMonotone(utr3, a, utr3);
          assert utr3 as real / utr3 as real == 1.0;
        }
      }
    }
    (relPos, tx as int - cdsStart as int, tx as int - cdsEnd as int)
  }

  /** The order on results that the monotonicity statement uses: finite values by value, and
      infinity above every finite value. */
  predicate RelLe(a: RelPos, b: RelPos)
  {
    match (a, b)
    case (Finite(x), Finite(y)) => x <= y
    case (Finite(_), PosInfinity) => true
    case (PosInfinity, PosInfinity) => true
    case _ => false
  }

  lemma DivMonotone(x: nat, y: nat, d: nat)
    requires x <= y && d > 0
    ensures x as real / d as real <= y as real / d as real
  {
    var qx := x as real / d as real;
    var qy := y as real / d as real;
    assert qx * (d as real) == x as real;
    assert qy * (d as real) == y as real;
  }

  /** `rel_pos` never decreases as the position moves towards the 3' end. */
  lemma RelPosMonotone(t1: nat, t2: nat, utr5: nat, cds: nat, utr3: nat)
    requires t1 <= t2
    requires !MetaCoordinates(t1, utr5, cds, utr3).0.NaN? && !MetaCoordinates(t2, utr5, cds, utr3).0.NaN?
    ensures RelLe(MetaCoordinates(t1, utr5, cds, utr3).0, MetaCoordinates(t2, utr5, cds, utr3).0)
  {
    var cdsStart := utr5;
    var cdsEnd := utr5 + cds;
    if t2 < cdsStart {
      DivMonotone(t1, t2, cdsStart);
    } else if t1 >= cdsStart && t2 < cdsEnd {
      DivMonotone(t1 - utr5, t2 - utr5, cds);
    } else if t1 >= cdsEnd && utr3 > 0 {
      DivMonotone(t1 - utr5 - cds, t2 - utr5 - cds, utr3);
    }
  }

  // ---------------------------------------------------------------------------
  // generate_splice_sites

  /** The splice sites of a transcript: the running width sums of its stored entries, in
      stored order, after every entry but the last. */
  function SpliceSitesOf(exons: seq<Exon>): (sites: seq<nat>)
    requires AllWellFormed(exons)
    ensures |sites| == if |exons| == 0 then 0 else |exons| - 1
  {
    seq(if |exons| == 0 then 0 else |exons| - 1,
      k requires 0 <= k < |exons| - 1 => SumWidths(exons[..k + 1]))
  }

  lemma SumWidthsPrefixStep(exons: seq<Exon>, i: nat)
    requires AllWellFormed(exons) && i < |exons|
    ensures SumWidths(exons[..i + 1]) == SumWidths(exons[..i]) + Width(exons[i])
  {
    SumWidthsLast(exons[..i + 1]);
    assert exons[..i + 1][..i] == exons[..i];
  }

  /** Site `k` is the width of the first `k + 1` entries, so the sites are positive, strictly
      increasing and below the summed width of all entries. */
  lemma {:induction false} SpliceSitesIncreasing(exons: seq<Exon>)
    requires AllWellFormed(exons)
    ensures var sites := SpliceSitesOf(exons);
      (forall k :: 0 <= k < |sites| ==> sites[k] == SumWidths(exons[..k + 1]))
      && (forall k :: 0 <= k < |sites| ==> 1 <= sites[k] < SumWidths(exons))
      && (forall i, j :: 0 <= i < j < |sites| ==> sites[i] < sites[j])
  {
    var sites := SpliceSitesOf(exons);
    forall j | 0 <= j <= |exons| ensures forall i :: 0 <= i < j ==> SumWidths(exons[..i]) < SumWidths(exons[..j]) {
      PrefixWidthsIncrease(exons, j);
    }
    forall k | 0 <= k < |sites| ensures 1 <= sites[k] < SumWidths(exons) {
      SumWidthsPrefixStep(exons, k);
      assert exons[..|exons|] == exons;
      assert SumWidths(exons[..k + 1]) < SumWidths(exons[..|exons|]);
    }
  }

  lemma {:induction false} PrefixWidthsIncrease(exons: seq<Exon>, j: nat)
    requires AllWellFormed(exons) && j <= |exons|
    ensures forall i :: 0 <= i < j ==> SumWidths(exons[..i]) < SumWidths(exons[..j])
    decreases j
  {
    if j > 0 {
      PrefixWidthsIncrease(exons, j - 1);
      SumWidthsPrefixStep(exons, j - 1);
    }
  }

  /** The cumulative-width loop for one transcript. */
  method SpliceSitesFor(exons: seq<Exon>) returns (spliceSites: seq<nat>)
    requires AllWellFormed(exons)
    ensures spliceSites == SpliceSitesOf(exons)
  {
    spliceSites := [];
    if |exons| == 0 {
      return;
    }
    var cumsumWidth := 0;
    var i := 0;
    while i < |exons|
      invariant 0 <= i <= |exons|
      invariant cumsumWidth == SumWidths(exons[..i])
      invariant |spliceSites| == if i == |exons| then i - 1 else i
      invariant forall k :: 0 <= k < |spliceSites| ==> spliceSites[k] == SumWidths(exons[..k + 1])
    {
      var exonLength := exons[i].end - exons[i].start + 1;
      SumWidthsPrefixStep(exons, i);
      cumsumWidth := cumsumWidth + exonLength;
      if i < |exons| - 1 {
        spliceSites := spliceSites + [cumsumWidth];
      }
      i := i + 1;
    }
  }

  /** The stored entries of every transcript, the only part `generate_splice_sites` reads. */
  function EntriesOf(transcripts: map<string, Transcript>): (m: map<string, seq<Exon>>)
    ensures m.Keys == transcripts.Keys
    ensures forall k :: k in m ==> m[k] == transcripts[k].exons
  {
    map k | k in transcripts :: transcripts[k].exons
  }

  predicate SpliceReady(entries: map<string, seq<Exon>>)
  {
    forall k :: k in entries ==> AllWellFormed(entries[k])
  }

  /** What `generate_splice_sites` promises: one entry per version-stripped id, holding the
      sites of some transcript with that stripped id (which one, when several share it,
      depends on the hash map's iteration order). */
  predicate IsSpliceMap(entries: map<string, seq<Exon>>, m: map<string, seq<nat>>)
    requires SpliceReady(entries)
  {
    && (forall k :: k in entries ==> StripVersion(k) in m)
    && (forall key :: key in m ==>
          exists k :: k in entries && StripVersion(k) == key && m[key] == SpliceSitesOf(entries[k]))
  }

  /** `generate_splice_sites`: the hash-map iteration becomes a choice of any unvisited id. */
  method GenerateSpliceSites(entries: map<string, seq<Exon>>) returns (spliceSitesMap: map<string, seq<nat>>)
    requires SpliceReady(entries)
    ensures IsSpliceMap(entries, spliceSitesMap)
  {
    spliceSitesMap := map[];
    var todo := entries.Keys;
    while todo != {}
      invariant todo <= entries.Keys
      invariant forall k :: k in entries && k !in todo ==> StripVersion(k) in spliceSitesMap
      invariant forall key :: key in spliceSitesMap ==>
        exists k :: k in entries && StripVersion(k) == key && spliceSitesMap[key] == SpliceSitesOf(entries[k])
      decreases |todo|
    {
      var transcriptId :| transcriptId in todo;
      var transcriptIdNoVersion := StripVersion(transcriptId);
      var spliceSites := SpliceSitesFor(entries[transcriptId]);
      spliceSitesMap := spliceSitesMap[transcriptIdNoVersion := spliceSites];
      todo := todo - {transcriptId};
    }
  }

  /** When no id carries a version (as when the annotation was read with versions stripped),
      the splice map is keyed by the transcript ids themselves and holds each one's sites. */
  lemma SpliceMapWithoutVersions(entries: map<string, seq<Exon>>, m: map<string, seq<nat>>)
    requires SpliceReady(entries) && IsSpliceMap(entries, m)
    requires forall k :: k in entries ==> '.' !in k
    ensures m.Keys == entries.Keys
    ensures forall k :: k in entries ==> m[k] == SpliceSitesOf(entries[k])
  {
    forall key | key in m ensures key in entries && m[key] == SpliceSitesOf(entries[key]) {
      var k :| k in entries && StripVersion(k) == key && m[key] == SpliceSitesOf(entries[k]);
      assert StripVersion(k) == k;
    }
    forall k | k in entries ensures k in m {
      assert StripVersion(k) == k;
    }
  }

  // ---------------------------------------------------------------------------
  // splice_site_distances

  /** One site's update of the pair (upstream, downstream): a site at or before the position
      may lower the downstream distance, a site after it the upstream distance. */
  function DistanceStep(acc: (Option<nat>, Option<nat>), tx: nat, site: nat): (Option<nat>, Option<nat>)
  {
    var up := acc.0;
    var down := acc.1;
    if site <= tx then
      (up, if down.None? || tx - site < down.value then Some(tx - site) else down)
    else
      (if up.None? || site - tx < up.value then Some(site - tx) else up, down)
  }

  /** The pair the loop of `splice_site_distances` ends with. */
  function Distances(tx: nat, sites: seq<nat>): (Option<nat>, Option<nat>)
    decreases |sites|
  {
    if |sites| == 0 then (None, None)
    else DistanceStep(Distances(tx, sites[..|sites| - 1]), tx, sites[|sites| - 1])
  }

  /** `d` is the least `tx - s` over sites `s <= tx`. */
  predicate IsDownstreamMin(tx: nat, sites: seq<nat>, d: nat)
  {
    (exists s :: s in sites && s <= tx && d == tx - s)
    && (forall s :: s in sites && s <= tx ==> d <= tx - s)
  }

  /** `u` is the least `s - tx` over sites `s > tx`. */
  predicate IsUpstreamMin(tx: nat, sites: seq<nat>, u: nat)
  {
    (exists s :: s in sites && s > tx && u == s - tx)
    && (forall s :: s in sites && s > tx ==> u <= s - tx)
  }

  /** The downstream distance is the distance back to the nearest site at or before the
      position, the upstream distance the distance on to the nearest site after it; each is
      absent exactly when there is no such site. */
  lemma {:induction false} DistancesAreNearest(tx: nat, sites: seq<nat>)
    ensures (Distances(tx, sites).1.None? <==> forall s :: s in sites ==> s > tx)
    ensures Distances(tx, sites).1.Some? ==> IsDownstreamMin(tx, sites, Distances(tx, sites).1.value)
    ensures (Distances(tx, sites).0.None? <==> forall s :: s in sites ==> s <= tx)
    ensures Distances(tx, sites).0.Some? ==> IsUpstreamMin(tx, sites, Distances(tx, sites).0.value)
    decreases |sites|
  {
    if |sites| > 0 {
      var init := sites[..|sites| - 1];
      var last := sites[|sites| - 1];
      DistancesAreNearest(tx, init);
      assert sites == init + [last];
      assert forall s :: s in sites <==> s in init || s == last;
      var (up0, down0) := Distances(tx, init);
      var (up, down) := Distances(tx, sites);
      if last <= tx {
        assert up == up0;
        if down0.None? || tx - last < down0.value {
          assert down == Some(tx - last);
          assert last in sites;
        } else {
          assert down == down0;
          var w :| w in init && w <= tx && down0.value == tx - w;
          assert w in sites;
        }
        if up.Some? {
          var w :| w in init && w > tx && up0.value == w - tx;
          assert w in sites;
        }
      } else {
        assert down == down0;
        if up0.None? || last - tx < up0.value {
          assert up == Some(last - tx);
          assert last in sites;
        } else {
          assert up == up0;
          var w :| w in init && w > tx && up0.value == w - tx;
          assert w in sites;
        }
        if down.Some? {
          var w :| w in init && w <= tx && down0.value == tx - w;
          assert w in sites;
        }
      }
    }
  }

  /** The pair depends only on which sites there are, not on their order. */
  lemma DistancesOrderIndependent(tx: nat, a: seq<nat>, b: seq<nat>)
    requires multiset(a) == multiset(b)
    ensures Distances(tx, a) == Distances(tx, b)
  {
    assert forall s :: s in a <==> s in b by {
      forall s ensures s in a <==> s in b {
        assert s in a <==> s in multiset(a);
        assert s in b <==> s in multiset(b);
      }
    }
    DistancesAreNearest(tx, a);
    DistancesAreNearest(tx, b);
    var (ua, da) := Distances(tx, a);
    var (ub, db) := Distances(tx, b);
    if da.Some? && db.Some? {
      var sa :| sa in a && sa <= tx && da.value == tx - sa;
      var sb :| sb in b && sb <= tx && db.value == tx - sb;
    }
    if ua.Some? && ub.Some? {
      var sa :| sa in a && sa > tx && ua.value == sa - tx;
      var sb :| sb in b && sb > tx && ub.value == sb - tx;
    }
  }

  /** For sites 50, 100 and 150: position 25 is 25 before the first site and has none behind
      it; position 200 is 50 past the last site and has none ahead. */
  lemma DistanceExamples()
    ensures Distances(25, [50, 100, 150]) == (Some(25), None)
    ensures Distances(200, [50, 100, 150]) == (None, Some(50))
  {
    assert [50, 100, 150][..2] == [50, 100];
    assert [50, 100][..1] == [50];
    assert [50][..0] == [];
  }

  /** The loop of `splice_site_distances`; the result is (upstream, downstream). */
  method SpliceSiteDistances(txCoord: nat, spliceSites: seq<nat>)
    returns (upstreamDistance: Option<nat>, downstreamDistance: Option<nat>)
    ensures (upstreamDistance, downstreamDistance) == Distances(txCoord, spliceSites)
  {
    upstreamDistance := None;
    downstreamDistance := None;
    var i := 0;
    while i < |spliceSites|
      invariant 0 <= i <= |spliceSites|
      invariant (upstreamDistance, downstreamDistance) == Distances(txCoord, spliceSites[..i])
    {
      assert spliceSites[..i + 1][..i] == spliceSites[..i];
      var spliceSite := spliceSites[i];
      var siteDistance := txCoord as int - spliceSite as int;
      if siteDistance >= 0 {
        if downstreamDistance.None? || siteDistance < downstreamDistance.value {
          downstreamDistance := Some(siteDistance);
        }
      } else {
        if upstreamDistance.None? || -siteDistance < upstreamDistance.value {
          upstreamDistance := Some(-siteDistance);
        }
      }
      i := i + 1;
    }
    assert spliceSites[..i] == spliceSites;
  }

  // ---------------------------------------------------------------------------
  // run_annotate

  /** One appended output column: text, an integer, or a `rel_pos` value. */
  datatype Cell = Text(text: string) | Number(n: int) | Relative(p: RelPos)

  const NA: Cell := Text("NA")

  /** The columns the header announces after the input's own. */
  const AnnotationColumns: seq<string> := ["gene_id", "gene_name", "transcript_biotype", "tx_len",
    "cds_start", "cds_end", "tx_end", "rel_pos", "abs_cds_start", "abs_cds_end", "up_junc_dist",
    "down_junc_dist"]

  /** The header line: the input header's fields, re-joined, then the annotation columns. */
  function HeaderLine(header: string): string
  {
    Join(Split(Trim(header), '\t'), '\t') + "\t" + Join(AnnotationColumns, '\t')
  }

  /** Re-joining the split header gives back the trimmed header. */
  lemma HeaderLineKeepsInputHeader(header: string)
    ensures HeaderLine(header) == Trim(header) + "\t" + Join(AnnotationColumns, '\t')
  {
    JoinSplit(Trim(header), '\t');
  }

  /** A data line `run_annotate` can read without panicking: it has a second field, and that
      field parses as a `u64`. */
  predicate Annotatable(line: string)
  {
    |Split(line, '\t')| >= 2 && ParseU64(Split(line, '\t')[1]).Some?
  }

  function OptionalText(v: Option<string>): Cell { Text(v.GetOr("NA")) }

  function OptionalNumber(v: Option<nat>): Cell
  {
    match v
    case Some(n) => Number(n)
    case None => NA
  }

  /** The twelve columns of a fully annotated line. */
  function FullCells(t: Transcript, tx: nat, utr5: nat, cds: nat, utr3: nat, sites: seq<nat>): (cells: seq<Cell>)
    ensures |cells| == |AnnotationColumns|
  {
    var meta := MetaCoordinates(tx, utr5, cds, utr3);
    var distances := Distances(tx, sites);
    [OptionalText(t.geneId), OptionalText(t.geneName), OptionalText(t.biotype),
     Number(TxLen(utr5, cds, utr3)), Number(CdsStart(utr5)), Number(CdsEnd(utr5, cds)),
     Number(TxEnd(utr5, cds, utr3)), Relative(meta.0), Number(meta.1), Number(meta.2),
     OptionalNumber(distances.0), OptionalNumber(distances.1)]
  }

  /** What the twelve columns say, one per name of the header: the gene id, gene name and
      biotype (`NA` when absent); the transcript length, CDS start, CDS end and transcript end
      of the layout; `rel_pos` and the offsets from the CDS start and end, which differ by the
      CDS length; then the distance on to the nearest junction after the position and back to
      the nearest one at or before it, each `NA` exactly when there is no such junction. */
  lemma FullCellsMeaning(t: Transcript, tx: nat, utr5: nat, cds: nat, utr3: nat, sites: seq<nat>)
    ensures var cells := FullCells(t, tx, utr5, cds, utr3, sites);
      && cells[0] == Text(t.geneId.GetOr("NA")) && cells[1] == Text(t.geneName.GetOr("NA"))
      && cells[2] == Text(t.biotype.GetOr("NA"))
      && cells[3] == Number(utr5 + cds + utr3 + 3) && cells[4] == Number(utr5)
      && cells[5] == Number(utr5 + cds) && cells[6] == Number(utr5 + cds + utr3)
      && cells[7] == Relative(MetaCoordinates(tx, utr5, cds, utr3).0)
      && cells[8] == Number(tx - utr5) && cells[9] == Number(tx - (utr5 + cds))
      && cells[8].n - cells[9].n == cds
      && (cells[10] == NA <==> forall s :: s in sites ==> s <= tx)
      && (cells[10] != NA ==> cells[10].Number? && cells[10].n >= 1 && IsUpstreamMin(tx, sites, cells[10].n))
      && (cells[11] == NA <==> forall s :: s in sites ==> s > tx)
      && (cells[11] != NA ==> cells[11].Number? && cells[11].n >= 0 && IsDownstreamMin(tx, sites, cells[11].n))
  {
    DistancesAreNearest(tx, sites);
    var d := Distances(tx, sites);
    if d.0.Some? {
      var s :| s in sites && s > tx && d.0.value == s - tx;
    }
  }

  /** The nine `NA` columns written when a line cannot be annotated. */
  const MissingCells: seq<Cell> := [NA, NA, NA, NA, NA, NA, NA, NA, NA]

  /** The columns `run_annotate` appends to one data line: the full set when the stripped id
      is annotated, its three lengths are all known and it has a splice entry, and the `NA`
      columns otherwise. */
  function AnnotateCells(line: string, transcripts: map<string, Transcript>, spliceSites: map<string, seq<nat>>): seq<Cell>
    requires Annotatable(line)
  {
    var fields := Split(line, '\t');
    var transcriptId := StripVersion(fields[0]);
    var txCoord := ParseU64(fields[1]).value;
    if transcriptId !in transcripts then MissingCells
    else
      var t := transcripts[transcriptId];
      if t.utr5Len.None? || t.cdsLen.None? || t.utr3Len.None? then MissingCells
      else if transcriptId !in spliceSites then MissingCells
      else FullCells(t, txCoord, t.utr5Len.value, t.cdsLen.value, t.utr3Len.value, spliceSites[transcriptId])
  }

  /** A line gets the twelve annotation columns exactly when its stripped id is annotated with
      all three lengths and has a splice entry; every other line gets nine `NA`s, three fewer
      than the header announces. */
  lemma AnnotateCellsShape(line: string, transcripts: map<string, Transcript>, spliceSites: map<string, seq<nat>>)
    requires Annotatable(line)
    ensures var id := StripVersion(Split(line, '\t')[0]);
      var full := id in transcripts && transcripts[id].utr5Len.Some? && transcripts[id].cdsLen.Some?
        && transcripts[id].utr3Len.Some? && id in spliceSites;
      (full ==> |AnnotateCells(line, transcripts, spliceSites)| == |AnnotationColumns|)
      && (!full ==> AnnotateCells(line, transcripts, spliceSites) == MissingCells)
    ensures |MissingCells| == 9 && |AnnotationColumns| == 12
  {
  }

  /** The corrected fallback: as many `NA` columns as the header announces. */
  const AlignedMissingCells: seq<Cell> := [NA, NA, NA, NA, NA, NA, NA, NA, NA, NA, NA, NA]

  /** `AnnotateCells` with the corrected fallback. */
  function AlignedAnnotateCells(line: string, transcripts: map<string, Transcript>, spliceSites: map<string, seq<nat>>): (cells: seq<Cell>)
    requires Annotatable(line)
    ensures |cells| == |AnnotationColumns|
    ensures AnnotateCells(line, transcripts, spliceSites) != MissingCells ==> cells == AnnotateCells(line, transcripts, spliceSites)
  {
    var cells := AnnotateCells(line, transcripts, spliceSites);
    if cells == MissingCells then AlignedMissingCells else cells
  }

  /** An output line: the annotated header, or an input line with its appended columns. */
  datatype OutputLine = Header(text: string) | Annotated(line: string, cells: seq<Cell>)

  /** The definition of the annotated data lines: line `i` keeps its text and gets the
      columns `AnnotateCells` gives it. The loop of `AnnotateData` is proved against it. */
  function AnnotateLines(lines: seq<string>, transcripts: map<string, Transcript>, spliceSites: map<string, seq<nat>>): (out: seq<OutputLine>)
    requires forall i :: 0 <= i < |lines| ==> Annotatable(lines[i])
    ensures |out| == |lines|
    ensures forall i :: 0 <= i < |lines| ==> out[i] == Annotated(lines[i], AnnotateCells(lines[i], transcripts, spliceSites))
  {
    seq(|lines|, i requires 0 <= i < |lines| => Annotated(lines[i], AnnotateCells(lines[i], transcripts, spliceSites)))
  }

  /** The data lines `run_annotate` reads: all lines, or all but the first when there is a
      header. */
  function DataLines(lines: seq<string>, hasHeader: bool): seq<string>
  {
    if hasHeader && |lines| > 0 then lines[1..] else if hasHeader then [] else lines
  }

  /** `run_annotate` on the lines of the input file, given the annotation and the splice map
      built from it. */
  function AnnotateOutput(lines: seq<string>, transcripts: map<string, Transcript>,
                          spliceSites: map<string, seq<nat>>, hasHeader: bool): seq<OutputLine>
    requires forall i :: 0 <= i < |DataLines(lines, hasHeader)| ==> Annotatable(DataLines(lines, hasHeader)[i])
  {
    (if hasHeader then [Header(HeaderLine(if |lines| > 0 then lines[0] else ""))] else [])
      + AnnotateLines(DataLines(lines, hasHeader), transcripts, spliceSites)
  }

  /** The columns of one data line, as the loop body of `run_annotate` computes them. */
  method AnnotateLine(line: string, transcripts: map<string, Transcript>, spliceSites: map<string, seq<nat>>)
    returns (cells: seq<Cell>)
    requires Annotatable(line)
    ensures cells == AnnotateCells(line, transcripts, spliceSites)
  {
    var fields := Split(line, '\t');
    var transcriptId := StripVersion(fields[0]);
    var txCoord := ParseU64(fields[1]).value;
    if transcriptId in transcripts {
      var transcript := transcripts[transcriptId];
      if transcript.utr5Len.Some? && transcript.cdsLen.Some? && transcript.utr3Len.Some? {
        var utr5Len, cdsLen, utr3Len := transcript.utr5Len.value, transcript.cdsLen.value, transcript.utr3Len.value;
        var (relPos, absCdsStart, absCdsEnd) := MetaCoordinates(txCoord, utr5Len, cdsLen, utr3Len);
        if transcriptId in spliceSites {
          var upJuncDist, downJuncDist := SpliceSiteDistances(txCoord, spliceSites[transcriptId]);
          return [OptionalText(transcript.geneId), OptionalText(transcript.geneName), OptionalText(transcript.biotype),
            Number(TxLen(utr5Len, cdsLen, utr3Len)), Number(CdsStart(utr5Len)), Number(CdsEnd(utr5Len, cdsLen)),
            Number(TxEnd(utr5Len, cdsLen, utr3Len)), Relative(relPos), Number(absCdsStart), Number(absCdsEnd),
            OptionalNumber(upJuncDist), OptionalNumber(downJuncDist)];
        }
      }
    }
    return MissingCells;
  }

  lemma AnnotateLinesStep(lines: seq<string>, i: nat, transcripts: map<string, Transcript>, spliceSites: map<string, seq<nat>>)
    requires i < |lines| && forall k :: 0 <= k < |lines| ==> Annotatable(lines[k])
    ensures AnnotateLines(lines[..i + 1], transcripts, spliceSites)
      == AnnotateLines(lines[..i], transcripts, spliceSites) + [Annotated(lines[i], AnnotateCells(lines[i], transcripts, spliceSites))]
  {
  }

  /** The line loop of `run_annotate`. */
  method AnnotateData(data: seq<string>, transcripts: map<string, Transcript>, spliceSites: map<string, seq<nat>>)
    returns (output: seq<OutputLine>)
    requires forall i :: 0 <= i < |data| ==> Annotatable(data[i])
    ensures output == AnnotateLines(data, transcripts, spliceSites)
  {
    output := [];
    var i := 0;
    while i < |data|
      invariant 0 <= i <= |data|
      invariant output == AnnotateLines(data[..i], transcripts, spliceSites)
    {
      var cells := AnnotateLine(data[i], transcripts, spliceSites);
      AnnotateLinesStep(data, i, transcripts, spliceSites);
      output := output + [Annotated(data[i], cells)];
      i := i + 1;
    }
    assert data[..i] == data;
  }

  /** `run_annotate`: builds the splice map, then annotates the header and each data line in
      order. */
  method RunAnnotate(lines: seq<string>, transcripts: map<string, Transcript>, hasHeader: bool)
    returns (spliceSites: map<string, seq<nat>>, output: seq<OutputLine>)
    requires SpliceReady(EntriesOf(transcripts))
    requires forall i :: 0 <= i < |DataLines(lines, hasHeader)| ==> Annotatable(DataLines(lines, hasHeader)[i])
    ensures IsSpliceMap(EntriesOf(transcripts), spliceSites)
    ensures output == AnnotateOutput(lines, transcripts, spliceSites, hasHeader)
  {
    spliceSites := GenerateSpliceSites(EntriesOf(transcripts));
    var header: seq<OutputLine> := [];
    if hasHeader {
      header := [Header(HeaderLine(if |lines| > 0 then lines[0] else ""))];
    }
    var body := AnnotateData(DataLines(lines, hasHeader), transcripts, spliceSites);
    output := header + body;
  }
}
