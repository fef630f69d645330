/** The backup `R2Dtool_rust/src/.2022-04-01_backup-main-working.rs`: both readers keep only
    `exon` records, in a `MultiMap` from an id to the entries in file order (GFF3 by `Parent`,
    GTF by the whole `transcript_id`, version included). Its conversion and its line loop are
    the code of `R2Dtool_rust/src/liftover.rs` (modelled once, in `LegacyLiftover`); only the
    output header is spelt differently. */
module BackupWorking {
  import opened Wrappers
  import opened Text
  import opened Features
  import LegacyLiftover

  /** The backup's `Exon` struct: it has no length or feature tag, which the shared entry type
      holds as 0 and `None`. The strand is read with `expect`. */
  function BackupEntry(r: Record): (e: Exon)
    requires r.strand.Some?
    ensures e.seqId == r.seqname && e.featureType == r.featureType
    ensures e.start == r.start && e.end == r.end && e.strand == r.strand.value && e.attributes == r.attributes
  {
    Exon(r.seqname, r.source, r.featureType, r.start, r.end, 0, r.strand.value, r.attributes, None)
  }

  /** Every exon record carries a strand (the readers `expect` one). */
  predicate ExonStrandsPresent(rs: seq<Record>)
  {
    forall i :: 0 <= i < |rs| && rs[i].featureType == "exon" ==> rs[i].strand.Some?
  }

  /** `MultiMap::insert`: the entry goes at the end of the key's list, which is created when
      the key is new. */
  function Insert(m: map<string, seq<Exon>>, key: string, e: Exon): (m': map<string, seq<Exon>>)
    ensures m'.Keys == m.Keys + {key}
    ensures m'[key] == (if key in m then m[key] else []) + [e]
    ensures forall k :: k in m && k != key ==> m'[k] == m[k]
  {
    m[key := (if key in m then m[key] else []) + [e]]
  }

  /** One record of either reader: an exon record with the key attribute is inserted under the
      attribute's value; every other record is passed over. */
  function ReaderStep(m: map<string, seq<Exon>>, r: Record, keyAttr: string): map<string, seq<Exon>>
    requires r.featureType == "exon" ==> r.strand.Some?
  {
    if r.featureType == "exon" && keyAttr in r.attributes then Insert(m, r.attributes[keyAttr], BackupEntry(r))
    else m
  }

  /** The multimap after the records `rs`, keyed by the attribute `keyAttr`. */
  function ReaderSpec(rs: seq<Record>, keyAttr: string): map<string, seq<Exon>>
    requires ExonStrandsPresent(rs)
    decreases |rs|
  {
    if |rs| == 0 then map[]
    else ReaderStep(ReaderSpec(rs[..|rs| - 1], keyAttr), rs[|rs| - 1], keyAttr)
  }

  /** The entries of the exon records whose key attribute is `key`, in file order. */
  function ExonsKeyed(rs: seq<Record>, keyAttr: string, key: string): seq<Exon>
    requires ExonStrandsPresent(rs)
    decreases |rs|
  {
    if |rs| == 0 then []
    else
      var r := rs[|rs| - 1];
      ExonsKeyed(rs[..|rs| - 1], keyAttr, key)
        + (if r.featureType == "exon" && keyAttr in r.attributes && r.attributes[keyAttr] == key
           then [BackupEntry(r)] else [])
  }

  /** The multimap holds a key exactly when some exon record carries it, and under it the
      entries of exactly those records, in file order. */
  lemma {:induction false} ReaderContents(rs: seq<Record>, keyAttr: string, key: string)
    requires ExonStrandsPresent(rs)
    ensures key in ReaderSpec(rs, keyAttr) <==> ExonsKeyed(rs, keyAttr, key) != []
    ensures key in ReaderSpec(rs, keyAttr) ==> ReaderSpec(rs, keyAttr)[key] == ExonsKeyed(rs, keyAttr, key)
    decreases |rs|
  {
    if |rs| > 0 {
      var init := rs[..|rs| - 1];
      assert ExonStrandsPresent(init) by {
        forall i | 0 <= i < |init| && init[i].featureType == "exon" ensures init[i].strand.Some? {
          assert init[i] == rs[i];
        }
      }
      ReaderContents(init, keyAttr, key);
    }
  }

  /** Every entry comes from an exon record, so the entries of a file whose exon records have
      `start <= end` can be walked without underflow. */
  lemma {:induction false} ReaderLiftReady(rs: seq<Record>, keyAttr: string)
    requires ExonStrandsPresent(rs)
    requires forall i :: 0 <= i < |rs| && rs[i].featureType == "exon" ==> rs[i].start <= rs[i].end
    ensures LegacyLiftover.LiftReady(ReaderSpec(rs, keyAttr))
    decreases |rs|
  {
    if |rs| > 0 {
      var init, r := rs[..|rs| - 1], rs[|rs| - 1];
      assert forall i :: 0 <= i < |init| ==> init[i] == rs[i];
      ReaderLiftReady(init, keyAttr);
      var m := ReaderSpec(init, keyAttr);
      if r.featureType == "exon" && keyAttr in r.attributes {
        var key := r.attributes[keyAttr];
        var entries := ReaderSpec(rs, keyAttr)[key];
        var before := if key in m then m[key] else [];
        assert entries == before + [BackupEntry(r)];
        assert AllWellFormed(entries) by {
          forall i | 0 <= i < |entries| ensures entries[i].start <= entries[i].end {
            if i < |before| { assert entries[i] == before[i]; }
          }
        }
      }
    }
  }

  // ---------------------------------------------------------------------------
  // read_gff_file / read_gtf_file

  function GffStep(m: map<string, seq<Exon>>, r: Record): map<string, seq<Exon>>
    requires r.featureType == "exon" ==> r.strand.Some?
  {
    ReaderStep(m, r, "Parent")
  }

  /** The GTF record loop: "#" records are skipped first, then the exon records are keyed by
      `transcript_id`. */
  function GtfStep(m: map<string, seq<Exon>>, r: Record): map<string, seq<Exon>>
    requires r.featureType == "exon" ==> r.strand.Some?
  {
    if r.featureType == "#" then m else ReaderStep(m, r, "transcript_id")
  }

  function GtfSpec(rs: seq<Record>): map<string, seq<Exon>>
    requires ExonStrandsPresent(rs)
    decreases |rs|
  {
    if |rs| == 0 then map[]
    else GtfStep(GtfSpec(rs[..|rs| - 1]), rs[|rs| - 1])
  }

  /** The "#" check changes nothing: such a record is no exon record anyway, so the GTF reader
      is the exon multimap keyed by `transcript_id`. */
  lemma {:induction false} GtfSkipIsRedundant(rs: seq<Record>)
    requires ExonStrandsPresent(rs)
    ensures GtfSpec(rs) == ReaderSpec(rs, "transcript_id")
    decreases |rs|
  {
    if |rs| > 0 {
      var init := rs[..|rs| - 1];
      assert forall i :: 0 <= i < |init| ==> init[i] == rs[i];
      GtfSkipIsRedundant(init);
    }
  }

  /** The `record.feature_type() == "exon"` body of both readers, keyed by `keyAttr`. */
  method ReadRecord(annotations: map<string, seq<Exon>>, record: Record, keyAttr: string)
    returns (next: map<string, seq<Exon>>)
    requires record.featureType == "exon" ==> record.strand.Some?
    ensures next == ReaderStep(annotations, record, keyAttr)
  {
    next := annotations;
    if record.featureType == "exon" {
      var exon := BackupEntry(record);
      if keyAttr in exon.attributes {
        var transcriptId := exon.attributes[keyAttr];
        var entries := if transcriptId in next then next[transcriptId] else [];
        next := next[transcriptId := entries + [exon]];
      }
    }
  }

  /** `read_gff_file` on the records of the file. */
  method ReadGffFile(records: seq<Record>) returns (annotations: map<string, seq<Exon>>)
    requires ExonStrandsPresent(records)
    ensures annotations == ReaderSpec(records, "Parent")
  {
    annotations := map[];
    for i := 0 to |records|
      invariant annotations == ReaderSpec(records[..i], "Parent")
    {
      assert records[..i + 1][..i] == records[..i];
      annotations := ReadRecord(annotations, records[i], "Parent");
    }
    assert records[..|records|] == records;
  }

  /** `read_gtf_file` on the records of the file. */
  method ReadGtfFile(records: seq<Record>) returns (annotations: map<string, seq<Exon>>)
    requires ExonStrandsPresent(records)
    ensures annotations == GtfSpec(records)
  {
    annotations := map[];
    for i := 0 to |records|
      invariant annotations == GtfSpec(records[..i])
    {
      assert records[..i + 1][..i] == records[..i];
      if records[i].featureType == "#" {
        continue;
      }
      annotations := ReadRecord(annotations, records[i], "transcript_id");
    }
    assert records[..|records|] == records;
  }

  // ---------------------------------------------------------------------------
  // convert_transcriptomic_to_genomic_coordinates (that of LegacyLiftover)

  /** The conversion strips the version from the query id but the GTF keys keep theirs: when
      every key carries a version, no line converts. */
  lemma VersionedKeysNeverMatch(fields: seq<string>, annotations: map<string, seq<Exon>>)
    requires LegacyLiftover.LiftReady(annotations)
    requires |fields| >= 4 ==> ParseU64(fields[1]).Some?
    requires forall k :: k in annotations ==> '.' in k
    ensures LegacyLiftover.ConvertSpec(fields, annotations) == LegacyLiftover.NoRow
  {
    if |fields| >= 4 {
      assert StripVersion(fields[0]) !in annotations;
    }
  }

  /** A GTF line whose id is the versioned `transcript_id` of an exon record never converts,
      whatever the annotation holds under the stripped id's own version. */
  lemma VersionedGtfIdNeverMatches(rs: seq<Record>, fields: seq<string>)
    requires ExonStrandsPresent(rs)
    requires forall i :: 0 <= i < |rs| && rs[i].featureType == "exon" ==> rs[i].start <= rs[i].end
    requires |fields| >= 4 && ParseU64(fields[1]).Some?
    requires forall i :: 0 <= i < |rs| && rs[i].featureType == "exon" && "transcript_id" in rs[i].attributes ==>
               '.' in rs[i].attributes["transcript_id"]
    ensures LegacyLiftover.LiftReady(GtfSpec(rs))
    ensures LegacyLiftover.ConvertSpec(fields, GtfSpec(rs)) == LegacyLiftover.NoRow
  {
    GtfSkipIsRedundant(rs);
    ReaderLiftReady(rs, "transcript_id");
    var m := GtfSpec(rs);
    forall k | k in m ensures '.' in k {
      ReaderContents(rs, "transcript_id", k);
      KeyedExonCarriesKey(rs, "transcript_id", k);
    }
    VersionedKeysNeverMatch(fields, m);
  }

  /** A key with entries is the key attribute of some exon record. */
  lemma {:induction false} KeyedExonCarriesKey(rs: seq<Record>, keyAttr: string, key: string)
    requires ExonStrandsPresent(rs) && ExonsKeyed(rs, keyAttr, key) != []
    ensures exists i :: 0 <= i < |rs| && rs[i].featureType == "exon" && keyAttr in rs[i].attributes &&
                        rs[i].attributes[keyAttr] == key
    decreases |rs|
  {
    var init, r := rs[..|rs| - 1], rs[|rs| - 1];
    assert forall i :: 0 <= i < |init| ==> init[i] == rs[i];
    if !(r.featureType == "exon" && keyAttr in r.attributes && r.attributes[keyAttr] == key) {
      KeyedExonCarriesKey(init, keyAttr, key);
    }
  }

  // ---------------------------------------------------------------------------
  // the main loop

  /** The output header of the backup: the prefix is capitalised. */
  function BackupHeaderOutput(header: string): string
    requires |Split(Trim(header), '\t')| >= 2
  {
    BackupPrefix + Join(Split(Trim(header), '\t')[2..], '\t')
  }

  /** What the backup's `main` writes after reading the annotation. */
  function BackupOutput(lines: seq<string>, annotations: map<string, seq<Exon>>, hasHeader: bool): seq<string>
    requires LegacyLiftover.LiftReady(annotations)
    requires hasHeader ==> |lines| > 0 && |Split(Trim(lines[0]), '\t')| >= 2
    requires LegacyLiftover.LoopSafe("", if hasHeader then lines[1..] else lines, annotations, hasHeader)
  {
    if hasHeader then [BackupHeaderOutput(lines[0])] + LegacyLiftover.LoopOutput("", lines[1..], annotations, true)
    else LegacyLiftover.LoopOutput("", lines, annotations, false)
  }

  /** The header prefix of the backup and that of `R2Dtool_rust/src/liftover.rs`. */
  const BackupPrefix := "Chromosome\tStart\tEnd\tName\tScore\tStrand\t"
  const LegacyPrefix := "chromosome\tstart\tend\tname\tscore\tstrand\t"

  /** The backup writes what `run_liftover` of `R2Dtool_rust/src/liftover.rs` writes, except
      for the header's capitalised prefix; so its loop drops every line after a "transcript"
      line just as that one does. */
  lemma BackupOutputIsLegacyOutput(lines: seq<string>, annotations: map<string, seq<Exon>>, hasHeader: bool)
    requires LegacyLiftover.LiftReady(annotations)
    requires hasHeader ==> |lines| > 0 && |Split(Trim(lines[0]), '\t')| >= 2
    requires LegacyLiftover.LoopSafe("", if hasHeader then lines[1..] else lines, annotations, hasHeader)
    ensures |BackupOutput(lines, annotations, hasHeader)| == |LegacyLiftover.LiftoverOutput(lines, annotations, hasHeader)|
    ensures !hasHeader ==> BackupOutput(lines, annotations, hasHeader) == LegacyLiftover.LiftoverOutput(lines, annotations, hasHeader)
    ensures hasHeader ==>
      var backup := BackupOutput(lines, annotations, hasHeader);
      var legacy := LegacyLiftover.LiftoverOutput(lines, annotations, hasHeader);
      && backup[1..] == legacy[1..]
      && backup[0][..|BackupPrefix|] == BackupPrefix && legacy[0][..|LegacyPrefix|] == LegacyPrefix
      && backup[0][|BackupPrefix|..] == legacy[0][|LegacyPrefix|..]
  {
    if hasHeader {
      var tail := Join(Split(Trim(lines[0]), '\t')[2..], '\t');
      assert BackupHeaderOutput(lines[0]) == BackupPrefix + tail;
      assert LegacyLiftover.HeaderOutput(lines[0]) == LegacyPrefix + tail;
    }
  }

  /** The backup's `main` after reading the annotation. */
  method RunMain(lines: seq<string>, annotations: map<string, seq<Exon>>, hasHeader: bool)
    returns (output: seq<string>)
    requires LegacyLiftover.LiftReady(annotations)
    requires hasHeader ==> |lines| > 0 && |Split(Trim(lines[0]), '\t')| >= 2
    requires LegacyLiftover.LoopSafe("", if hasHeader then lines[1..] else lines, annotations, hasHeader)
    ensures output == BackupOutput(lines, annotations, hasHeader)
  {
    if hasHeader {
      var body := LegacyLiftover.LiftLines(lines[1..], annotations, true);
      output := [BackupHeaderOutput(lines[0])] + body;
    } else {
      output := LegacyLiftover.LiftLines(lines, annotations, false);
    }
  }
}
