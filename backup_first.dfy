/** The backup `R2Dtool_rust/src/.2022-03-31-15-01_backup_main.rs`: its GFF3 reader is that of
    the later backup (`BackupWorking`), its GTF reader has no "#" check, and its conversion
    looks the query id up as written and computes the genomic value the same way on either
    strand, writing four columns. */
module BackupFirst {
  import opened Wrappers
  import opened Text
  import opened Features
  import LegacyLiftover
  import BackupWorking

  /** `read_gtf_file`: every exon record with a `transcript_id` is inserted under it. With the
      later backup's "#" check redundant (`BackupWorking.GtfSkipIsRedundant`), both backups read
      the same GTF map; the GFF3 reader is `BackupWorking.ReadGffFile`. */
  method ReadGtfFile(records: seq<Record>) returns (annotations: map<string, seq<Exon>>)
    requires BackupWorking.ExonStrandsPresent(records)
    ensures annotations == BackupWorking.ReaderSpec(records, "transcript_id")
  {
    annotations := map[];
    for i := 0 to |records|
      invariant annotations == BackupWorking.ReaderSpec(records[..i], "transcript_id")
    {
      assert records[..i + 1][..i] == records[..i];
      annotations := BackupWorking.ReadRecord(annotations, records[i], "transcript_id");
    }
    assert records[..|records|] == records;
  }

  /** The genomic value at distance `d` into `e`, whatever its strand: `d + start - 1`, a `u64`
      expression that underflows only when `d + start` is 0. */
  function FirstGenomic(e: Exon, d: nat): (g: Option<nat>)
    ensures g.None? <==> d + e.start == 0
    ensures g.Some? ==> g.value + 1 == d + e.start
  {
    if d + e.start >= 1 then Some(d + e.start - 1) else None
  }

  /** The four-column row: sequence, genomic value, the third input field and the strand. */
  function FirstRow(e: Exon, g: nat, fields: seq<string>): string
    requires |fields| >= 3
  {
    Join([e.seqId, NatToDecimal(g), fields[2], e.strand], '\t')
  }

  /** `convert_transcriptomic_to_genomic_coordinates` of this backup. */
  function ConvertSpec(fields: seq<string>, annotations: map<string, seq<Exon>>): LegacyLiftover.Outcome
    requires LegacyLiftover.LiftReady(annotations)
    requires |fields| >= 4 ==> ParseU64(fields[1]).Some?
  {
    if |fields| < 4 then LegacyLiftover.NoRow
    else
      var position := ParseU64(fields[1]).value;
      if fields[0] !in annotations then LegacyLiftover.NoRow
      else
        match LegacyLiftover.Reach(annotations[fields[0]], position)
        case None => LegacyLiftover.NoRow
        case Some((e, d)) =>
          match FirstGenomic(e, d)
          case None => LegacyLiftover.Underflow
          case Some(g) => LegacyLiftover.Row(FirstRow(e, g, fields))
  }

  /** A row or an underflow comes out exactly when the line has four fields, its id (as
      written) is known and the position is at most the total width; the underflow happens
      only for position 0 on an entry starting at 0, and otherwise the row's value is the
      distance plus the entry's start, minus 1, on either strand. */
  lemma ConvertDefinedness(fields: seq<string>, annotations: map<string, seq<Exon>>)
    requires LegacyLiftover.LiftReady(annotations)
    requires |fields| >= 4 ==> ParseU64(fields[1]).Some?
    ensures ConvertSpec(fields, annotations) != LegacyLiftover.NoRow <==>
      |fields| >= 4 && fields[0] in annotations && |annotations[fields[0]]| > 0
      && ParseU64(fields[1]).value <= SumWidths(annotations[fields[0]])
    ensures ConvertSpec(fields, annotations) == LegacyLiftover.Underflow ==>
      ParseU64(fields[1]).value == 0 && annotations[fields[0]][0].start == 0
    ensures ConvertSpec(fields, annotations).Row? ==>
      var reached := LegacyLiftover.Reach(annotations[fields[0]], ParseU64(fields[1]).value).value;
      ConvertSpec(fields, annotations).text == FirstRow(reached.0, reached.1 + reached.0.start - 1, fields)
  {
    if ConvertSpec(fields, annotations) == LegacyLiftover.Underflow {
      var exons, position := annotations[fields[0]], ParseU64(fields[1]).value;
      var reached := LegacyLiftover.Reach(exons, position).value;
      assert reached.1 == 0 && reached.0.start == 0;
      ReachZeroIsFirst(exons, position);
    }
  }

  /** Distance 0 is only reached at the first entry with position 0: every later entry is
      reached strictly after the widths before it. */
  lemma {:induction false} ReachZeroIsFirst(exons: seq<Exon>, position: nat)
    requires AllWellFormed(exons)
    requires LegacyLiftover.Reach(exons, position).Some? && LegacyLiftover.Reach(exons, position).value.1 == 0
    ensures position == 0 && LegacyLiftover.Reach(exons, position).value.0 == exons[0]
  {
    if Width(exons[0]) < position {
      var tail := exons[1..];
      assert forall i :: 0 <= i < |tail| ==> tail[i] == exons[i + 1];
      var rest := position - Width(exons[0]);
      assert LegacyLiftover.Reach(exons, position) == LegacyLiftover.Reach(tail, rest);
      if rest > 0 {
        ReachOfPositive(tail, rest);
      }
    }
  }

  /** A positive position is reached at a positive distance. */
  lemma {:induction false} ReachOfPositive(exons: seq<Exon>, position: nat)
    requires AllWellFormed(exons) && position > 0
    ensures LegacyLiftover.Reach(exons, position).Some? ==> LegacyLiftover.Reach(exons, position).value.1 > 0
    decreases |exons|
  {
    if |exons| > 0 && Width(exons[0]) < position {
      var tail := exons[1..];
      assert forall i :: 0 <= i < |tail| ==> tail[i] == exons[i + 1];
      ReachOfPositive(tail, position - Width(exons[0]));
    }
  }

  /** On the plus strand this backup's value is one less than that of `R2Dtool_rust/src/liftover.rs`;
      on the minus strand, where that one counts back from the end, the two values sum to
      `end + start - 3`. */
  lemma GenomicAgainstLegacy(e: Exon, d: nat)
    requires d + e.start >= 1
    ensures e.strand == "+" ==> LegacyLiftover.LegacyGenomic(e, d).value == FirstGenomic(e, d).value + 1
    ensures e.strand != "+" && LegacyLiftover.LegacyGenomic(e, d).Some? ==>
      LegacyLiftover.LegacyGenomic(e, d).value + FirstGenomic(e, d).value + 3 == e.end + e.start
  {
  }

  /** The row has exactly four tab-separated columns when its pieces contain no tab. */
  lemma FirstRowColumns(e: Exon, g: nat, fields: seq<string>)
    requires |fields| >= 3
    requires '\t' !in e.seqId && '\t' !in fields[2] && '\t' !in e.strand
    ensures Split(FirstRow(e, g, fields), '\t') == [e.seqId, NatToDecimal(g), fields[2], e.strand]
  {
    var pieces := [e.seqId, NatToDecimal(g), fields[2], e.strand];
    assert forall i :: 0 <= i < |pieces| ==> '\t' !in pieces[i];
    SplitJoin(pieces, '\t');
  }

  /** The conversion's exon loop is that of `R2Dtool_rust/src/liftover.rs`; only the id lookup
      and the value formula differ. */
  method Convert(siteFields: seq<string>, annotations: map<string, seq<Exon>>) returns (outcome: LegacyLiftover.Outcome)
    requires LegacyLiftover.LiftReady(annotations)
    requires |siteFields| >= 4 ==> ParseU64(siteFields[1]).Some?
    ensures outcome == ConvertSpec(siteFields, annotations)
  {
    if |siteFields| < 4 {
      return LegacyLiftover.NoRow;
    }
    var transcriptId := siteFields[0];
    var position := ParseU64(siteFields[1]).value;
    if transcriptId !in annotations {
      return LegacyLiftover.NoRow;
    }
    var reached := LegacyLiftover.Walk(annotations[transcriptId], position);
    if reached.None? {
      return LegacyLiftover.NoRow;
    }
    var (exon, d) := reached.value;
    var genomicPosition := FirstGenomic(exon, d);
    if genomicPosition.None? {
      return LegacyLiftover.Underflow;
    }
    return LegacyLiftover.Row(FirstRow(exon, genomicPosition.value, siteFields));
  }
}
