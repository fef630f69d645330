/** The single-pass annotation readers of `src/parse_annotation.rs`: `read_gtf_file` builds one
    transcript per version-stripped `transcript_id`, drops transcripts without exons or with
    exons on several sequences, sorts the exons and records the junctions; `read_gff_file`
    accepts exon, CDS and UTR features only and runs a chromosome `retain` over the whole map
    for every feature. */
module ParseAnnotation {
  import opened Wrappers
  import opened Text
  import opened Features
  import ParseGtf

  /** One transcript; `exons` holds the exon entries (and, from a GFF3 file, the CDS and UTR
      entries). */
  datatype Transcript = Transcript(
    transcriptId: string,
    geneId: Option<string>,
    geneName: Option<string>,
    utr5Len: Option<nat>,
    cdsLen: Option<nat>,
    utr3Len: Option<nat>,
    hasMissingFeatures: bool,
    exons: seq<Exon>,
    biotype: Option<string>,
    spliceJunctionPositions: seq<nat>,
    strand: Option<string>,
    chromosome: string)

  const GtfBiotypeKeys: seq<string> := ["transcript_biotype", "transcript_type", "gene_type"]
  const GffBiotypeKeys: seq<string> := ["gene_biotype", "gene_type", "transcript_biotype"]

  /** The transcript `or_insert_with` creates from the first record of an id. The strand is
      read with `expect`; the callers' preconditions rule out a missing one. */
  function NewTranscript(key: string, r: Record, biotypeKeys: seq<string>): (t: Transcript)
    ensures t.exons == [] && t.spliceJunctionPositions == []
    ensures t.chromosome == r.seqname && t.biotype == FindBiotype(r.attributes, biotypeKeys)
  {
    Transcript(key, Lookup(r.attributes, "gene_id"), Lookup(r.attributes, "gene_name"), None, None, None,
      false, [], FindBiotype(r.attributes, biotypeKeys), [], Some(r.strand.GetOr("")), r.seqname)
  }

  /** The sort by start and the junction loop that both readers end with. */
  function SortAndJunctions(t: Transcript): (f: Transcript)
    ensures OrderedByStart(f.exons, false) && multiset(f.exons) == multiset(t.exons)
    ensures f.spliceJunctionPositions == t.spliceJunctionPositions + JunctionPositions(f.exons)
    ensures f == t.(exons := f.exons, spliceJunctionPositions := f.spliceJunctionPositions)
  {
    var sorted := SortByStart(t.exons, false);
    t.(exons := sorted, spliceJunctionPositions := t.spliceJunctionPositions + JunctionPositions(sorted))
  }

  method SortTranscript(t: Transcript) returns (f: Transcript)
    ensures f == SortAndJunctions(t)
  {
    var sorted := SortByStart(t.exons, false);
    var junctions := PushJunctions(sorted);
    f := t.(exons := sorted, spliceJunctionPositions := t.spliceJunctionPositions + junctions);
  }

  /** The `values_mut` loop: every transcript sorted, with its junctions. */
  method SortAll(transcripts: map<string, Transcript>) returns (sorted: map<string, Transcript>)
    ensures sorted == map k | k in transcripts :: SortAndJunctions(transcripts[k])
  {
    sorted := transcripts;
    var todo := transcripts.Keys;
    assert sorted == ApplyOutside(transcripts, todo, SortAndJunctions);
    while todo != {}
      invariant todo <= transcripts.Keys
      invariant sorted == ApplyOutside(transcripts, todo, SortAndJunctions)
      decreases todo
    {
      var id :| id in todo;
      var f := SortTranscript(sorted[id]);
      ApplyOutsideStep(transcripts, todo, SortAndJunctions, id);
      sorted := sorted[id := f];
      todo := todo - {id};
    }
  }

  // ---------------------------------------------------------------------------
  // read_gtf_file

  /** The state of the record loop: the transcripts, the ignored-type counts, the ids seen on
      `transcript` records and the ids warned about (in order). */
  datatype GtfState = GtfState(
    transcripts: map<string, Transcript>,
    ignoredFeatures: map<string, nat>,
    encounteredTranscripts: set<string>,
    warnings: seq<string>)

  const EmptyGtf := GtfState(map[], map[], {}, [])

  /** The record is not a "#" line and carries a `transcript_id`. */
  predicate Keyed(r: Record)
  {
    r.featureType != "#" && "transcript_id" in r.attributes
  }

  function GtfKey(r: Record): string
    requires "transcript_id" in r.attributes
  {
    StripVersion(r.attributes["transcript_id"])
  }

  /** `end - start + 1` is computed for every keyed record; it needs `start <= end`. */
  predicate GtfLengthsDefined(rs: seq<Record>)
  {
    forall i :: 0 <= i < |rs| && Keyed(rs[i]) ==> rs[i].start <= rs[i].end
  }

  /** No earlier keyed record has the same key as `rs[i]`. */
  predicate FirstOfKey(rs: seq<Record>, i: int)
    requires 0 <= i < |rs| && Keyed(rs[i])
  {
    forall j :: 0 <= j < i && Keyed(rs[j]) ==> GtfKey(rs[j]) != GtfKey(rs[i])
  }

  /** The strand is read with `expect` by the record that creates a transcript and by every
      exon record. */
  predicate GtfStrandsPresent(rs: seq<Record>)
  {
    forall i :: 0 <= i < |rs| && Keyed(rs[i]) && (rs[i].featureType == "exon" || FirstOfKey(rs, i))
      ==> rs[i].strand.Some?
  }

  function GtfExon(r: Record): (e: Exon)
    requires r.start <= r.end
    ensures e.start <= e.end && e.seqId == r.seqname
  {
    Exon(r.seqname, r.source, r.featureType, r.start, r.end, RecordLength(r), r.strand.GetOr(""),
      r.attributes, Some(r.featureType))
  }

  /** The feature types the dispatch handles by name; every other type is counted as
      ignored. */
  predicate GtfKnownType(ft: string)
  {
    ft == "exon" || ParseGtf.IsCdsType(ft) || ParseGtf.IsUtr5Type(ft) || ParseGtf.IsUtr3Type(ft) || ft == "transcript"
  }

  /** The feature-type dispatch on the (possibly just created) transcript `t`: an exon is
      appended, a CDS or UTR length accumulated; the identity and metadata stay. */
  function GtfUpdate(t: Transcript, r: Record): (u: Transcript)
    requires r.start <= r.end
    ensures u == t.(exons := u.exons, cdsLen := u.cdsLen, utr5Len := u.utr5Len, utr3Len := u.utr3Len)
  {
    var n := RecordLength(r);
    var ft := r.featureType;
    if ft == "exon" then t.(exons := t.exons + [GtfExon(r)])
    else if ParseGtf.IsCdsType(ft) then t.(cdsLen := ParseGtf.AddLength(t.cdsLen, n))
    else if ParseGtf.IsUtr5Type(ft) then t.(utr5Len := ParseGtf.AddLength(t.utr5Len, n))
    else if ParseGtf.IsUtr3Type(ft) then t.(utr3Len := ParseGtf.AddLength(t.utr3Len, n))
    else t
  }

  /** One iteration of the record loop of `read_gtf_file`. */
  function GtfStep(st: GtfState, r: Record): GtfState
    requires Keyed(r) ==> r.start <= r.end
  {
    if !Keyed(r) then st
    else
      var key := GtfKey(r);
      var ft := r.featureType;
      var t := if key in st.transcripts then st.transcripts[key] else NewTranscript(key, r, GtfBiotypeKeys);
      GtfState(
        st.transcripts[key := GtfUpdate(t, r)],
        if GtfKnownType(ft) then st.ignoredFeatures else st.ignoredFeatures[ft := CountOf(st.ignoredFeatures, ft) + 1],
        if ft == "transcript" then st.encounteredTranscripts + {key} else st.encounteredTranscripts,
        if ft == "transcript" && key in st.encounteredTranscripts then st.warnings + [key] else st.warnings)
  }

  function GtfSpec(rs: seq<Record>): GtfState
    requires GtfLengthsDefined(rs)
    decreases |rs|
  {
    if |rs| == 0 then EmptyGtf
    else GtfStep(GtfSpec(rs[..|rs| - 1]), rs[|rs| - 1])
  }

  /** The `retain` test: at least one exon, and every exon on the first exon's sequence. */
  predicate Survives(t: Transcript)
  {
    |t.exons| >= 1 && forall i :: 0 <= i < |t.exons| ==> t.exons[i].seqId == t.exons[0].seqId
  }

  /** What `read_gtf_file` returns (with the counts and warnings it reports). */
  function ReadGtf(rs: seq<Record>): GtfState
    requires GtfLengthsDefined(rs)
  {
    var st := GtfSpec(rs);
    st.(transcripts := map k | k in st.transcripts && Survives(st.transcripts[k]) :: SortAndJunctions(st.transcripts[k]))
  }

  /** The loop body of `read_gtf_file` for one record. */
  method ReadGtfRecord(st: GtfState, record: Record) returns (next: GtfState)
    requires Keyed(record) ==> record.start <= record.end
    ensures next == GtfStep(st, record)
  {
    if record.featureType == "#" || "transcript_id" !in record.attributes {
      return st;
    }
    var transcriptId := StripVersion(record.attributes["transcript_id"]);
    var transcript := if transcriptId in st.transcripts then st.transcripts[transcriptId]
      else NewTranscript(transcriptId, record, GtfBiotypeKeys);
    var featureLength := record.end - record.start + 1;
    var transcripts, ignoredFeatures := st.transcripts, st.ignoredFeatures;
    var encountered, warnings := st.encounteredTranscripts, st.warnings;
    match record.featureType {
      case "exon" =>
        transcript := transcript.(exons := transcript.exons + [GtfExon(record)]);
      case "CDS" =>
        transcript := transcript.(cdsLen := Some(transcript.cdsLen.GetOr(0) + featureLength));
      case "five_prime_utr" =>
        transcript := transcript.(utr5Len := Some(transcript.utr5Len.GetOr(0) + featureLength));
      case "5UTR" =>
        transcript := transcript.(utr5Len := Some(transcript.utr5Len.GetOr(0) + featureLength));
      case "three_prime_utr" =>
        transcript := transcript.(utr3Len := Some(transcript.utr3Len.GetOr(0) + featureLength));
      case "3UTR" =>
        transcript := transcript.(utr3Len := Some(transcript.utr3Len.GetOr(0) + featureLength));
      case "transcript" =>
        if transcriptId in encountered {
          warnings := warnings + [transcriptId];
        }
        encountered := encountered + {transcriptId};
      case other =>
        ignoredFeatures := ignoredFeatures[other := CountOf(ignoredFeatures, other) + 1];
    }
    transcripts := transcripts[transcriptId := transcript];
    next := GtfState(transcripts, ignoredFeatures, encountered, warnings);
  }

  /** The in-place `retain` of transcripts that pass `Survives`. */
  method RetainSurvivors(transcripts: map<string, Transcript>) returns (kept: map<string, Transcript>)
    ensures kept == map k | k in transcripts && Survives(transcripts[k]) :: transcripts[k]
  {
    kept := transcripts;
    var todo := transcripts.Keys;
    while todo != {}
      invariant todo <= transcripts.Keys
      invariant kept == RetainOutside(transcripts, todo, Survives)
      decreases todo
    {
      var id :| id in todo;
      if !Survives(kept[id]) {
        kept := kept - {id};
      }
      todo := todo - {id};
    }
  }

  /** `read_gtf_file` on the records of the file; parse errors and messages are not part of
      the model. */
  method ReadGtfFile(records: seq<Record>) returns (result: GtfState)
    requires GtfLengthsDefined(records) && GtfStrandsPresent(records)
    ensures result == ReadGtf(records)
  {
    var st := EmptyGtf;
    for i := 0 to |records|
      invariant GtfLengthsDefined(records[..i])
      invariant st == GtfSpec(records[..i])
    {
      assert records[..i + 1][..i] == records[..i];
      st := ReadGtfRecord(st, records[i]);
    }
    assert records[..|records|] == records;
    var kept := RetainSurvivors(st.transcripts);
    var sorted := SortAll(kept);
    result := st.(transcripts := sorted);
  }

  // ---------------------------------------------------------------------------
  // properties of read_gtf_file

  /** A "#" record or one without `transcript_id` changes nothing. */
  lemma GtfUnkeyedIsNoop(st: GtfState, r: Record)
    requires !Keyed(r)
    ensures GtfStep(st, r) == st
  {
  }

  /** A keyed record of any type creates its transcript from its own attributes when the id is
      new, leaves an existing transcript's metadata alone, and touches no other transcript. */
  lemma GtfRecordCreates(st: GtfState, r: Record)
    requires Keyed(r) && r.start <= r.end
    ensures var key := GtfKey(r);
      var ts := GtfStep(st, r).transcripts;
      && ts.Keys == st.transcripts.Keys + {key}
      && (forall k :: k in st.transcripts && k != key ==> ts[k] == st.transcripts[k])
      && (key !in st.transcripts ==>
            ts[key].geneId == Lookup(r.attributes, "gene_id")
            && ts[key].geneName == Lookup(r.attributes, "gene_name")
            && ts[key].biotype == FindBiotype(r.attributes, GtfBiotypeKeys)
            && ts[key].strand == Some(r.strand.GetOr(""))
            && ts[key].chromosome == r.seqname)
      && (key in st.transcripts ==>
            ts[key].transcriptId == st.transcripts[key].transcriptId
            && ts[key].geneId == st.transcripts[key].geneId
            && ts[key].biotype == st.transcripts[key].biotype
            && ts[key].chromosome == st.transcripts[key].chromosome)
  {
  }

  /** The dispatch: an exon record appends one exon, CDS and UTR records add `end - start + 1`
      to their length, any other type but `transcript` is counted as ignored. */
  lemma GtfRecordDispatch(st: GtfState, r: Record)
    requires Keyed(r) && r.start <= r.end
    ensures var key := GtfKey(r);
      var t := if key in st.transcripts then st.transcripts[key] else NewTranscript(key, r, GtfBiotypeKeys);
      var next := GtfStep(st, r);
      && (r.featureType == "exon" ==> next.transcripts[key].exons == t.exons + [GtfExon(r)])
      && (r.featureType != "exon" ==> next.transcripts[key].exons == t.exons)
      && (r.featureType == "CDS" ==> next.transcripts[key].cdsLen == Some(t.cdsLen.GetOr(0) + RecordLength(r)))
      && (ParseGtf.IsUtr5Type(r.featureType) ==> next.transcripts[key].utr5Len == Some(t.utr5Len.GetOr(0) + RecordLength(r)))
      && (ParseGtf.IsUtr3Type(r.featureType) ==> next.transcripts[key].utr3Len == Some(t.utr3Len.GetOr(0) + RecordLength(r)))
      && (GtfKnownType(r.featureType) ==> next.ignoredFeatures == st.ignoredFeatures)
      && (!GtfKnownType(r.featureType) ==>
            next.ignoredFeatures == st.ignoredFeatures[r.featureType := CountOf(st.ignoredFeatures, r.featureType) + 1])
  {
  }

  /** A `transcript` record warns exactly when its id was already seen on a `transcript`
      record. */
  lemma GtfDuplicateWarning(st: GtfState, r: Record)
    requires Keyed(r) && r.start <= r.end && r.featureType == "transcript"
    ensures var next := GtfStep(st, r);
      next.encounteredTranscripts == st.encounteredTranscripts + {GtfKey(r)}
      && (GtfKey(r) in st.encounteredTranscripts <==> next.warnings == st.warnings + [GtfKey(r)])
      && (GtfKey(r) !in st.encounteredTranscripts <==> next.warnings == st.warnings)
  {
  }

  /** The exon entries the records of one key contribute, in file order. */
  function GtfExonsOf(rs: seq<Record>, key: string): seq<Exon>
    requires GtfLengthsDefined(rs)
    decreases |rs|
  {
    if |rs| == 0 then []
    else
      var r := rs[|rs| - 1];
      GtfExonsOf(rs[..|rs| - 1], key)
        + (if Keyed(r) && GtfKey(r) == key && r.featureType == "exon" then [GtfExon(r)] else [])
  }

  predicate KeyedWith(rs: seq<Record>, key: string, i: int)
  {
    0 <= i < |rs| && Keyed(rs[i]) && GtfKey(rs[i]) == key
  }

  /** Over the whole file: an id is in the map exactly when some keyed record carries it, its
      entries are exactly its exon records in file order, and no junctions are recorded yet. */
  lemma {:induction false} GtfSpecContents(rs: seq<Record>, key: string)
    requires GtfLengthsDefined(rs)
    ensures key in GtfSpec(rs).transcripts <==> exists i :: KeyedWith(rs, key, i)
    ensures key in GtfSpec(rs).transcripts ==> GtfSpec(rs).transcripts[key].exons == GtfExonsOf(rs, key)
    ensures forall k :: k in GtfSpec(rs).transcripts ==> GtfSpec(rs).transcripts[k].spliceJunctionPositions == []
    decreases |rs|
  {
    if |rs| > 0 {
      var init := rs[..|rs| - 1];
      var r := rs[|rs| - 1];
      assert GtfLengthsDefined(init);
      GtfSpecContents(init, key);
      var st := GtfSpec(init);
      assert GtfSpec(rs) == GtfStep(st, r);
      if Keyed(r) {
        GtfRecordCreates(st, r);
        GtfRecordDispatch(st, r);
      }
      KeyedWithSnoc(rs, init, key);
      if !(exists i :: KeyedWith(init, key, i)) {
        GtfExonsAbsent(init, key);
      }
    }
  }

  /** A key occurs in a sequence of records exactly when it occurs before the last record or
      on it. */
  lemma KeyedWithSnoc(rs: seq<Record>, init: seq<Record>, key: string)
    requires |rs| > 0 && init == rs[..|rs| - 1]
    ensures (exists i :: KeyedWith(rs, key, i)) <==>
      (exists i :: KeyedWith(init, key, i)) || KeyedWith(rs, key, |rs| - 1)
  {
    if i :| KeyedWith(rs, key, i) {
      if i < |rs| - 1 { assert KeyedWith(init, key, i); }
    }
    if i :| KeyedWith(init, key, i) {
      assert KeyedWith(rs, key, i);
    }
  }

  lemma {:induction false} GtfExonsAbsent(rs: seq<Record>, key: string)
    requires GtfLengthsDefined(rs)
    requires !exists i :: KeyedWith(rs, key, i)
    ensures GtfExonsOf(rs, key) == []
    decreases |rs|
  {
    if |rs| > 0 {
      var init := rs[..|rs| - 1];
      KeyedWithSnoc(rs, init, key);
      assert GtfLengthsDefined(init);
      GtfExonsAbsent(init, key);
      assert !KeyedWith(rs, key, |rs| - 1);
    }
  }

  /** After the `retain`, a transcript is kept exactly when it has an exon and all its exons
      lie on one sequence; the survivors have their exon records sorted by start (a permutation
      of them in file order) and a junction at `end + 1` of every exon but the last. */
  lemma ReadGtfSurvivors(rs: seq<Record>, key: string)
    requires GtfLengthsDefined(rs)
    ensures var parsed := GtfSpec(rs).transcripts;
      var result := ReadGtf(rs).transcripts;
      && (key in result <==> key in parsed && Survives(parsed[key]))
      && (key in result ==>
            OrderedByStart(result[key].exons, false)
            && multiset(result[key].exons) == multiset(GtfExonsOf(rs, key))
            && result[key].spliceJunctionPositions == JunctionPositions(result[key].exons)
            && 1 <= |result[key].exons| == |GtfExonsOf(rs, key)|
            && forall i :: 0 <= i < |result[key].exons| ==> result[key].exons[i].seqId == parsed[key].exons[0].seqId)
  {
    GtfSpecContents(rs, key);
    var parsed := GtfSpec(rs).transcripts;
    var result := ReadGtf(rs).transcripts;
    if key in result {
      var t := parsed[key];
      assert result[key] == SortAndJunctions(t);
      assert t.spliceJunctionPositions == [];
      SameSequence(result[key].exons, t.exons, t.exons[0].seqId);
    }
  }

  /** A permutation of features that all lie on one sequence has the same length and lies on
      that sequence. */
  lemma SameSequence(e: seq<Exon>, f: seq<Exon>, seqId: string)
    requires multiset(e) == multiset(f)
    requires forall i :: 0 <= i < |f| ==> f[i].seqId == seqId
    ensures |e| == |f|
    ensures forall i :: 0 <= i < |e| ==> e[i].seqId == seqId
  {
    assert |multiset(e)| == |multiset(f)|;
    forall i | 0 <= i < |e| ensures e[i].seqId == seqId {
      assert e[i] in multiset(e);
      var j :| 0 <= j < |f| && f[j] == e[i];
    }
  }

  // ---------------------------------------------------------------------------
  // read_gff_file

  /** The feature types `read_gff_file` accepts. */
  predicate GffAccepted(ft: string)
  {
    ft == "exon" || ParseGtf.IsCdsType(ft) || ParseGtf.IsUtr5Type(ft) || ParseGtf.IsUtr3Type(ft)
  }

  /** The UTR names normalised to "5UTR" / "3UTR". */
  function NormalisedType(ft: string): (n: string)
    ensures ParseGtf.IsUtr5Type(ft) ==> n == "5UTR"
    ensures ParseGtf.IsUtr3Type(ft) ==> n == "3UTR"
    ensures !ParseGtf.IsUtr5Type(ft) && !ParseGtf.IsUtr3Type(ft) ==> n == ft
  {
    if ParseGtf.IsUtr5Type(ft) then "5UTR" else if ParseGtf.IsUtr3Type(ft) then "3UTR" else ft
  }

  /** Every accepted record computes its length and reads its strand with `expect`. */
  predicate GffRecordsReady(rs: seq<Record>)
  {
    forall i :: 0 <= i < |rs| && GffAccepted(rs[i].featureType) ==> rs[i].start <= rs[i].end && rs[i].strand.Some?
  }

  function GffEntry(r: Record): (e: Exon)
    requires r.start <= r.end
    ensures e.seqId == r.seqname && e.attributes == r.attributes && e.start <= e.end
  {
    var ft := NormalisedType(r.featureType);
    Exon(r.seqname, r.source, ft, r.start, r.end, RecordLength(r), r.strand.GetOr(""), r.attributes, Some(ft))
  }

  /** The `retain` over the whole map: transcripts on the feature's sequence get a copy of the
      feature, all others are removed. */
  function RetainOnChromosome(ts: map<string, Transcript>, e: Exon): map<string, Transcript>
  {
    map k | k in ts && ts[k].chromosome == e.seqId :: ts[k].(exons := ts[k].exons + [e])
  }

  /** One iteration of the record loop of `read_gff_file`, as written. */
  function GffStep(ts: map<string, Transcript>, r: Record): map<string, Transcript>
    requires GffAccepted(r.featureType) ==> r.start <= r.end
  {
    if !GffAccepted(r.featureType) || "transcript_id" !in r.attributes then ts
    else
      var e := GffEntry(r);
      var key := StripVersion(r.attributes["transcript_id"]);
      var kept := RetainOnChromosome(ts, e);
      var t := if key in kept then kept[key] else NewTranscript(key, r, GffBiotypeKeys);
      kept[key := t.(exons := t.exons + [e])]
  }

  function GffSpec(rs: seq<Record>): map<string, Transcript>
    requires GffRecordsReady(rs)
    decreases |rs|
  {
    if |rs| == 0 then map[]
    else GffStep(GffSpec(rs[..|rs| - 1]), rs[|rs| - 1])
  }

  /** What `read_gff_file` returns. */
  function ReadGff(rs: seq<Record>): map<string, Transcript>
    requires GffRecordsReady(rs)
  {
    var ts := GffSpec(rs);
    map k | k in ts :: SortAndJunctions(ts[k])
  }

  /** After an accepted record with a `transcript_id`, every transcript left is on that
      record's sequence; the record's own transcript is among them. */
  lemma GffStepOneChromosome(ts: map<string, Transcript>, r: Record)
    requires GffAccepted(r.featureType) && r.start <= r.end && "transcript_id" in r.attributes
    ensures var next := GffStep(ts, r);
      StripVersion(r.attributes["transcript_id"]) in next
      && (forall k :: k in next ==> next[k].chromosome == r.seqname)
      && (forall k :: k in next ==> k in ts || k == StripVersion(r.attributes["transcript_id"]))
      && (forall k :: k in next && k != StripVersion(r.attributes["transcript_id"]) ==> ts[k].chromosome == r.seqname)
  {
  }

  /** The retain-then-insert of `read_gff_file` stores a feature twice in its own transcript
      and once in every other transcript on its sequence, and removes every transcript on
      another sequence: two exon records of "t1" on "chr1" leave three entries. */
  lemma GffDuplicatesFeatures(r1: Record, r2: Record)
    requires r1 == Record("chr1", "src", "exon", 100, 200, Some("+"), map["transcript_id" := "t1"])
    requires r2 == Record("chr1", "src", "exon", 300, 400, Some("+"), map["transcript_id" := "t1"])
    ensures "t1" in GffSpec([r1, r2]) && |GffSpec([r1, r2])["t1"].exons| == 3
  {
    assert StripVersion("t1") == "t1";
    assert [r1, r2][..1] == [r1];
    assert [r1][..0] == [];
    assert GffSpec([]) == map[];
    var m1 := GffSpec([r1]);
    assert m1 == GffStep(GffSpec([]), r1);
    assert |m1["t1"].exons| == 1;
    assert GffSpec([r1, r2]) == GffStep(m1, r2);
  }

  /** A feature of "t2" on "chr2" removes the earlier "t1" on "chr1". */
  lemma GffDropsOtherSequences(r1: Record, r2: Record)
    requires r1 == Record("chr1", "src", "exon", 100, 200, Some("+"), map["transcript_id" := "t1"])
    requires r2 == Record("chr2", "src", "exon", 300, 400, Some("+"), map["transcript_id" := "t2"])
    ensures GffSpec([r1, r2]).Keys == {"t2"}
  {
    assert StripVersion("t1") == "t1";
    assert StripVersion("t2") == "t2";
    assert [r1, r2][..1] == [r1];
    assert [r1][..0] == [];
    assert GffSpec([]) == map[];
    var m1 := GffSpec([r1]);
    assert m1 == GffStep(GffSpec([]), r1);
    GffStepOneChromosome(GffSpec([]), r1);
    assert GffSpec([r1, r2]) == GffStep(m1, r2);
    GffStepOneChromosome(m1, r2);
  }

  /** The evidently intended step: the sequence check looks at the record's own transcript
      only (removing it when the feature lies on another sequence), and the feature is stored
      once. */
  function GffStepIntended(ts: map<string, Transcript>, r: Record): map<string, Transcript>
    requires GffAccepted(r.featureType) ==> r.start <= r.end
  {
    if !GffAccepted(r.featureType) || "transcript_id" !in r.attributes then ts
    else
      var e := GffEntry(r);
      var key := StripVersion(r.attributes["transcript_id"]);
      var base := if key in ts && ts[key].chromosome != e.seqId then ts - {key} else ts;
      var t := if key in base then base[key] else NewTranscript(key, r, GffBiotypeKeys);
      base[key := t.(exons := t.exons + [e])]
  }

  /** Every stored feature lies on its transcript's sequence. */
  predicate EntriesOnChromosome(ts: map<string, Transcript>)
  {
    forall k :: k in ts ==> forall i :: 0 <= i < |ts[k].exons| ==> ts[k].exons[i].seqId == ts[k].chromosome
  }

  /** The intended step leaves every other transcript alone, appends the feature exactly once
      to its own transcript, and keeps every feature on its transcript's sequence. */
  lemma GffStepIntendedCorrect(ts: map<string, Transcript>, r: Record)
    requires GffAccepted(r.featureType) && r.start <= r.end && "transcript_id" in r.attributes
    requires EntriesOnChromosome(ts)
    ensures var key := StripVersion(r.attributes["transcript_id"]);
      var next := GffStepIntended(ts, r);
      && next.Keys == ts.Keys + {key}
      && (forall k :: k in ts && k != key ==> next[k] == ts[k])
      && (key in ts && ts[key].chromosome == r.seqname ==> next[key].exons == ts[key].exons + [GffEntry(r)])
      && (!(key in ts && ts[key].chromosome == r.seqname) ==> next[key].exons == [GffEntry(r)])
      && EntriesOnChromosome(next)
  {
  }

  /** The whole-map `retain` of one record, done in place. */
  method RetainOnChromosomeLoop(transcripts: map<string, Transcript>, exon: Exon) returns (kept: map<string, Transcript>)
    ensures kept == RetainOnChromosome(transcripts, exon)
  {
    kept := transcripts;
    var todo := transcripts.Keys;
    while todo != {}
      invariant todo <= transcripts.Keys
      invariant kept == map k | k in transcripts && (k in todo || transcripts[k].chromosome == exon.seqId) ::
        if k in todo then transcripts[k] else transcripts[k].(exons := transcripts[k].exons + [exon])
      decreases todo
    {
      var id :| id in todo;
      var transcript := kept[id];
      if transcript.chromosome == exon.seqId {
        kept := kept[id := transcript.(exons := transcript.exons + [exon])];
      } else {
        kept := kept - {id};
      }
      todo := todo - {id};
    }
  }

  /** The loop body of `read_gff_file` for one record. */
  method ReadGffRecord(transcripts: map<string, Transcript>, record: Record) returns (next: map<string, Transcript>)
    requires GffAccepted(record.featureType) ==> record.start <= record.end
    ensures next == GffStep(transcripts, record)
  {
    if !GffAccepted(record.featureType) {
      return transcripts;
    }
    var exon := GffEntry(record);
    if "transcript_id" !in exon.attributes {
      return transcripts;
    }
    var transcriptId := StripVersion(exon.attributes["transcript_id"]);
    next := RetainOnChromosomeLoop(transcripts, exon);
    var transcript := if transcriptId in next then next[transcriptId] else NewTranscript(transcriptId, record, GffBiotypeKeys);
    next := next[transcriptId := transcript.(exons := transcript.exons + [exon])];
  }

  /** `read_gff_file` on the records of the file. */
  method ReadGffFile(records: seq<Record>) returns (transcripts: map<string, Transcript>)
    requires GffRecordsReady(records)
    ensures transcripts == ReadGff(records)
  {
    transcripts := map[];
    for i := 0 to |records|
      invariant GffRecordsReady(records[..i])
      invariant transcripts == GffSpec(records[..i])
    {
      assert records[..i + 1][..i] == records[..i];
      transcripts := ReadGffRecord(transcripts, records[i]);
    }
    assert records[..|records|] == records;
    transcripts := SortAll(transcripts);
  }
}
