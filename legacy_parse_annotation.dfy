/** The annotation readers of the older `R2Dtool_rust/src/parse_annotation.rs`: one transcript
    per version-stripped `transcript_id`, built in a single pass over the records; GTF keeps
    exon entries and accumulates CDS and UTR lengths, GFF3 keeps every exon, CDS and UTR
    feature as an entry. Both end by sorting the entries by start and recording junctions. */
module LegacyParseAnnotation {
  import opened Wrappers
  import opened Text
  import opened Features
  import ParseGtf
  import ParseAnnotation

  /** The older transcript: no gene id or gene name. */
  datatype Transcript = Transcript(
    transcriptId: string,
    utr5Len: Option<nat>,
    cdsLen: Option<nat>,
    utr3Len: Option<nat>,
    hasMissingFeatures: bool,
    exons: seq<Exon>,
    biotype: Option<string>,
    spliceJunctionPositions: seq<nat>,
    strand: Option<string>,
    chromosome: string)

  /** Both readers look the biotype up under these keys, in this order. */
  const BiotypeKeys: seq<string> := ["gene_biotype", "gene_type", "transcript_biotype"]

  function NewTranscript(key: string, r: Record): (t: Transcript)
    ensures t.exons == [] && t.spliceJunctionPositions == [] && t.chromosome == r.seqname
    ensures t.utr5Len.None? && t.cdsLen.None? && t.utr3Len.None?
    ensures t.biotype == FindBiotype(r.attributes, BiotypeKeys)
  {
    Transcript(key, None, None, None, false, [], FindBiotype(r.attributes, BiotypeKeys), [],
      Some(r.strand.GetOr("")), r.seqname)
  }

  /** The in-place `sort_by_key` on `start` and the junction loop. */
  function SortAndJunctions(t: Transcript): (f: Transcript)
    ensures OrderedByStart(f.exons, false) && multiset(f.exons) == multiset(t.exons)
    ensures f.spliceJunctionPositions == t.spliceJunctionPositions + JunctionPositions(f.exons)
    ensures f == t.(exons := f.exons, spliceJunctionPositions := f.spliceJunctionPositions)
  {
    var sorted := SortByStart(t.exons, false);
    t.(exons := sorted, spliceJunctionPositions := t.spliceJunctionPositions + JunctionPositions(sorted))
  }

  method SortTranscript(t: Transcript) returns (f: Transcript)
    ensures f == SortAndJunctions(t)
  {
    var sorted := SortByStart(t.exons, false);
    var junctions := PushJunctions(sorted);
    f := t.(exons := sorted, spliceJunctionPositions := t.spliceJunctionPositions + junctions);
  }

  /** The `values_mut` loop over the finished map. */
  method SortAll(transcripts: map<string, Transcript>) returns (sorted: map<string, Transcript>)
    ensures sorted == map k | k in transcripts :: SortAndJunctions(transcripts[k])
  {
    sorted := transcripts;
    var todo := transcripts.Keys;
    assert sorted == ApplyOutside(transcripts, todo, SortAndJunctions);
    while todo != {}
      invariant todo <= transcripts.Keys
      invariant sorted == ApplyOutside(transcripts, todo, SortAndJunctions)
      decreases todo
    {
      var id :| id in todo;
      var f := SortTranscript(sorted[id]);
      ApplyOutsideStep(transcripts, todo, SortAndJunctions, id);
      sorted := sorted[id := f];
      todo := todo - {id};
    }
  }

  // ---------------------------------------------------------------------------
  // read_gtf_file

  /** The dispatch on the feature type: exons are stored, CDS and UTR lengths summed, every
      other type leaves the transcript as it is. */
  function GtfUpdate(t: Transcript, r: Record): (u: Transcript)
    requires r.start <= r.end
    ensures u == t.(exons := u.exons, cdsLen := u.cdsLen, utr5Len := u.utr5Len, utr3Len := u.utr3Len)
  {
    var n := RecordLength(r);
    var ft := r.featureType;
    if ft == "exon" then t.(exons := t.exons + [ParseAnnotation.GtfExon(r)])
    else if ParseGtf.IsCdsType(ft) then t.(cdsLen := ParseGtf.AddLength(t.cdsLen, n))
    else if ParseGtf.IsUtr5Type(ft) then t.(utr5Len := ParseGtf.AddLength(t.utr5Len, n))
    else if ParseGtf.IsUtr3Type(ft) then t.(utr3Len := ParseGtf.AddLength(t.utr3Len, n))
    else t
  }

  function GtfStep(ts: map<string, Transcript>, r: Record): map<string, Transcript>
    requires ParseAnnotation.Keyed(r) ==> r.start <= r.end
  {
    if !ParseAnnotation.Keyed(r) then ts
    else
      var key := ParseAnnotation.GtfKey(r);
      var t := if key in ts then ts[key] else NewTranscript(key, r);
      ts[key := GtfUpdate(t, r)]
  }

  function GtfSpec(rs: seq<Record>): map<string, Transcript>
    requires ParseAnnotation.GtfLengthsDefined(rs)
    decreases |rs|
  {
    if |rs| == 0 then map[]
    else GtfStep(GtfSpec(rs[..|rs| - 1]), rs[|rs| - 1])
  }

  /** What `read_gtf_file` returns. */
  function ReadGtf(rs: seq<Record>): map<string, Transcript>
    requires ParseAnnotation.GtfLengthsDefined(rs)
  {
    var ts := GtfSpec(rs);
    map k | k in ts :: SortAndJunctions(ts[k])
  }

  /** Over the whole file: a key is present exactly when some keyed record (of any type)
      carries it, and its entries are exactly its exon records, in file order. */
  lemma {:induction false} GtfSpecContents(rs: seq<Record>, key: string)
    requires ParseAnnotation.GtfLengthsDefined(rs)
    ensures key in GtfSpec(rs) <==> exists i :: ParseAnnotation.KeyedWith(rs, key, i)
    ensures key in GtfSpec(rs) ==> GtfSpec(rs)[key].exons == ParseAnnotation.GtfExonsOf(rs, key)
    ensures key in GtfSpec(rs) ==> GtfSpec(rs)[key].spliceJunctionPositions == []
    decreases |rs|
  {
    if |rs| > 0 {
      var init := rs[..|rs| - 1];
      var r := rs[|rs| - 1];
      assert ParseAnnotation.GtfLengthsDefined(init);
      GtfSpecContents(init, key);
      ParseAnnotation.KeyedWithSnoc(rs, init, key);
      var ts := GtfSpec(init);
      assert GtfSpec(rs) == GtfStep(ts, r);
      if !(exists i :: ParseAnnotation.KeyedWith(init, key, i)) {
        ParseAnnotation.GtfExonsAbsent(init, key);
      }
      if ParseAnnotation.Keyed(r) {
        GtfRecordEffect(ts, r);
      }
    }
  }

  /** `read_gtf_file`'s result: the keys of the keyed records, each transcript holding its exon
      records sorted by start (a permutation of them in file order) and a junction after every
      exon but the last. */
  lemma ReadGtfContents(rs: seq<Record>, key: string)
    requires ParseAnnotation.GtfLengthsDefined(rs)
    ensures key in ReadGtf(rs) <==> exists i :: ParseAnnotation.KeyedWith(rs, key, i)
    ensures key in ReadGtf(rs) ==>
      && OrderedByStart(ReadGtf(rs)[key].exons, false)
      && multiset(ReadGtf(rs)[key].exons) == multiset(ParseAnnotation.GtfExonsOf(rs, key))
      && ReadGtf(rs)[key].spliceJunctionPositions == JunctionPositions(ReadGtf(rs)[key].exons)
  {
    GtfSpecContents(rs, key);
  }

  /** A record of any type creates its transcript; an exon record appends its entry, CDS and
      UTR records add `end - start + 1` to their length; no other transcript changes. */
  lemma GtfRecordEffect(ts: map<string, Transcript>, r: Record)
    requires ParseAnnotation.Keyed(r) && r.start <= r.end
    ensures var key := ParseAnnotation.GtfKey(r);
      var t := if key in ts then ts[key] else NewTranscript(key, r);
      var next := GtfStep(ts, r);
      && next.Keys == ts.Keys + {key}
      && (forall k :: k in ts && k != key ==> next[k] == ts[k])
      && (r.featureType == "exon" ==> next[key].exons == t.exons + [ParseAnnotation.GtfExon(r)])
      && (r.featureType != "exon" ==> next[key].exons == t.exons)
      && (r.featureType == "CDS" ==> next[key].cdsLen == Some(t.cdsLen.GetOr(0) + RecordLength(r)))
      && (ParseGtf.IsUtr5Type(r.featureType) ==> next[key].utr5Len == Some(t.utr5Len.GetOr(0) + RecordLength(r)))
      && (ParseGtf.IsUtr3Type(r.featureType) ==> next[key].utr3Len == Some(t.utr3Len.GetOr(0) + RecordLength(r)))
      && next[key].biotype == t.biotype && next[key].chromosome == t.chromosome
  {
  }

  method ReadGtfRecord(transcripts: map<string, Transcript>, record: Record) returns (next: map<string, Transcript>)
    requires ParseAnnotation.Keyed(record) ==> record.start <= record.end
    ensures next == GtfStep(transcripts, record)
  {
    if record.featureType == "#" || "transcript_id" !in record.attributes {
      return transcripts;
    }
    var transcriptId := StripVersion(record.attributes["transcript_id"]);
    var transcript := if transcriptId in transcripts then transcripts[transcriptId] else NewTranscript(transcriptId, record);
    var featureLength := record.end - record.start + 1;
    match record.featureType {
      case "exon" =>
        transcript := transcript.(exons := transcript.exons + [ParseAnnotation.GtfExon(record)]);
      case "CDS" =>
        transcript := transcript.(cdsLen := Some(transcript.cdsLen.GetOr(0) + featureLength));
      case "five_prime_utr" =>
        transcript := transcript.(utr5Len := Some(transcript.utr5Len.GetOr(0) + featureLength));
      case "5UTR" =>
        transcript := transcript.(utr5Len := Some(transcript.utr5Len.GetOr(0) + featureLength));
      case "three_prime_utr" =>
        transcript := transcript.(utr3Len := Some(transcript.utr3Len.GetOr(0) + featureLength));
      case "3UTR" =>
        transcript := transcript.(utr3Len := Some(transcript.utr3Len.GetOr(0) + featureLength));
      case _ =>
    }
    next := transcripts[transcriptId := transcript];
  }

  /** `read_gtf_file` on the records of the file. */
  method ReadGtfFile(records: seq<Record>) returns (transcripts: map<string, Transcript>)
    requires ParseAnnotation.GtfLengthsDefined(records) && ParseAnnotation.GtfStrandsPresent(records)
    ensures transcripts == ReadGtf(records)
  {
    transcripts := map[];
    for i := 0 to |records|
      invariant ParseAnnotation.GtfLengthsDefined(records[..i])
      invariant transcripts == GtfSpec(records[..i])
    {
      assert records[..i + 1][..i] == records[..i];
      transcripts := ReadGtfRecord(transcripts, records[i]);
    }
    assert records[..|records|] == records;
    transcripts := SortAll(transcripts);
  }

  // ---------------------------------------------------------------------------
  // read_gff_file

  /** An accepted feature with a `transcript_id` is appended, once, to its transcript. */
  function GffStep(ts: map<string, Transcript>, r: Record): map<string, Transcript>
    requires ParseAnnotation.GffAccepted(r.featureType) ==> r.start <= r.end
  {
    if !ParseAnnotation.GffAccepted(r.featureType) || "transcript_id" !in r.attributes then ts
    else
      var key := StripVersion(r.attributes["transcript_id"]);
      var t := if key in ts then ts[key] else NewTranscript(key, r);
      ts[key := t.(exons := t.exons + [ParseAnnotation.GffEntry(r)])]
  }

  function GffSpec(rs: seq<Record>): map<string, Transcript>
    requires ParseAnnotation.GffRecordsReady(rs)
    decreases |rs|
  {
    if |rs| == 0 then map[]
    else GffStep(GffSpec(rs[..|rs| - 1]), rs[|rs| - 1])
  }

  /** What `read_gff_file` returns. */
  function ReadGff(rs: seq<Record>): map<string, Transcript>
    requires ParseAnnotation.GffRecordsReady(rs)
  {
    var ts := GffSpec(rs);
    map k | k in ts :: SortAndJunctions(ts[k])
  }

  /** The record contributes an entry to `key`. */
  predicate GffFeatureOf(r: Record, key: string)
  {
    ParseAnnotation.GffAccepted(r.featureType) && "transcript_id" in r.attributes
      && StripVersion(r.attributes["transcript_id"]) == key
  }

  /** The entries the records of one key contribute, in file order. */
  function GffEntriesOf(rs: seq<Record>, key: string): seq<Exon>
    requires ParseAnnotation.GffRecordsReady(rs)
    decreases |rs|
  {
    if |rs| == 0 then []
    else
      var r := rs[|rs| - 1];
      GffEntriesOf(rs[..|rs| - 1], key) + (if GffFeatureOf(r, key) then [ParseAnnotation.GffEntry(r)] else [])
  }

  /** Over the whole file: a key is present exactly when it has an entry, and it holds each of
      its accepted features exactly once, in file order, whatever sequence they lie on. */
  lemma {:induction false} GffSpecContents(rs: seq<Record>, key: string)
    requires ParseAnnotation.GffRecordsReady(rs)
    ensures key in GffSpec(rs) <==> GffEntriesOf(rs, key) != []
    ensures key in GffSpec(rs) ==> GffSpec(rs)[key].exons == GffEntriesOf(rs, key)
    ensures key in GffSpec(rs) ==> GffSpec(rs)[key].spliceJunctionPositions == []
    decreases |rs|
  {
    if |rs| > 0 {
      var init := rs[..|rs| - 1];
      assert ParseAnnotation.GffRecordsReady(init);
      GffSpecContents(init, key);
    }
  }

  /** `read_gff_file`'s result: each transcript holds its features sorted by start, a
      permutation of them in file order, with a junction after every entry but the last. */
  lemma ReadGffContents(rs: seq<Record>, key: string)
    requires ParseAnnotation.GffRecordsReady(rs)
    ensures key in ReadGff(rs) <==> GffEntriesOf(rs, key) != []
    ensures key in ReadGff(rs) ==>
      && OrderedByStart(ReadGff(rs)[key].exons, false)
      && multiset(ReadGff(rs)[key].exons) == multiset(GffEntriesOf(rs, key))
      && ReadGff(rs)[key].spliceJunctionPositions == JunctionPositions(ReadGff(rs)[key].exons)
  {
    GffSpecContents(rs, key);
  }

  method ReadGffRecord(transcripts: map<string, Transcript>, record: Record) returns (next: map<string, Transcript>)
    requires ParseAnnotation.GffAccepted(record.featureType) ==> record.start <= record.end
    ensures next == GffStep(transcripts, record)
  {
    if !ParseAnnotation.GffAccepted(record.featureType) {
      return transcripts;
    }
    var exon := ParseAnnotation.GffEntry(record);
    if "transcript_id" !in exon.attributes {
      return transcripts;
    }
    var transcriptId := StripVersion(exon.attributes["transcript_id"]);
    var transcript := if transcriptId in transcripts then transcripts[transcriptId] else NewTranscript(transcriptId, record);
    next := transcripts[transcriptId := transcript.(exons := transcript.exons + [exon])];
  }

  /** `read_gff_file` on the records of the file. */
  method ReadGffFile(records: seq<Record>) returns (transcripts: map<string, Transcript>)
    requires ParseAnnotation.GffRecordsReady(records)
    ensures transcripts == ReadGff(records)
  {
    transcripts := map[];
    for i := 0 to |records|
      invariant ParseAnnotation.GffRecordsReady(records[..i])
      invariant transcripts == GffSpec(records[..i])
    {
      assert records[..i + 1][..i] == records[..i];
      transcripts := ReadGffRecord(transcripts, records[i]);
    }
    assert records[..|records|] == records;
    transcripts := SortAll(transcripts);
  }
}
