/** The annotation model builder of `src/parse_gtf.rs`: records are dispatched chunk by chunk
    into a per-chunk transcript map, an ignored-feature counter and a set of skipped PAR
    genes; the chunk results are merged in order; every transcript is then finalised
    (exon-feature sort, junctions, transcript length, length check, UTR classification). */
module ParseGtf {
  import opened Wrappers
  import opened Text
  import opened Features

  /** One transcript of the annotation; `exons` holds the exon and `UTR` entries in the order
      the records arrived. */
  datatype Transcript = Transcript(
    transcriptId: string,
    geneId: Option<string>,
    geneName: Option<string>,
    utr5Len: Option<nat>,
    cdsLen: Option<nat>,
    utr3Len: Option<nat>,
    hasMissingFeatures: bool,
    exons: seq<Exon>,
    biotype: Option<string>,
    spliceJunctionPositions: seq<nat>,
    strand: Option<string>,
    chromosome: string,
    cdsStarts: seq<nat>,
    cdsEnds: seq<nat>,
    transcriptLength: Option<nat>)

  /** What `process_chunk` returns. */
  datatype ChunkResult = ChunkResult(
    transcripts: map<string, Transcript>,
    ignoredFeatures: map<string, nat>,
    skippedParGenes: set<string>)

  const BiotypeKeys: seq<string> := ["transcript_biotype", "transcript_type", "gene_type", "gene_biotype"]
  const ParMarker: string := "_PAR_"

  function TranscriptIdAttr(isGtf: bool): string
  {
    if isGtf then "transcript_id" else "ID"
  }

  function GeneIdAttr(isGtf: bool): string
  {
    if isGtf then "gene_id" else "Parent"
  }

  /** The record's gene-id attribute marks a pseudo-autosomal-region gene. */
  predicate IsPar(r: Record, isGtf: bool)
  {
    GeneIdAttr(isGtf) in r.attributes && Contains(r.attributes[GeneIdAttr(isGtf)], ParMarker)
  }

  /** The record passes the PAR, transcript-id and coordinate checks and reaches the
      feature-type dispatch. */
  predicate Dispatched(r: Record, isGtf: bool)
  {
    !IsPar(r, isGtf) && TranscriptIdAttr(isGtf) in r.attributes && r.start <= r.end
  }

  /** The map key of a record: its whole transcript id, or the part before the first '.'. */
  function TranscriptKey(r: Record, isGtf: bool, hasVersion: bool): (key: string)
    requires TranscriptIdAttr(isGtf) in r.attributes
    ensures hasVersion ==> key == r.attributes[TranscriptIdAttr(isGtf)]
    ensures !hasVersion ==> key == StripVersion(r.attributes[TranscriptIdAttr(isGtf)])
  {
    var id := r.attributes[TranscriptIdAttr(isGtf)];
    if hasVersion then id else StripVersion(id)
  }

  /** The strand symbol of a record, "." when it has none. */
  function StrandSymbol(r: Record): string
  {
    r.strand.GetOr(".")
  }

  /** The `Exon` built from an `exon` or `UTR` record; both tag the entry with the record's
      feature type. */
  function EntryOf(r: Record): (e: Exon)
    requires r.start <= r.end
    ensures e.start == r.start && e.end == r.end && e.start <= e.end
    ensures e.length == r.end - r.start + 1
    ensures e.feature == Some(r.featureType)
  {
    Exon(r.seqname, r.source, r.featureType, r.start, r.end, RecordLength(r), StrandSymbol(r),
      r.attributes, Some(r.featureType))
  }

  /** The transcript created by the first `exon` or `UTR` record of an id in a chunk. */
  function NewTranscript(key: string, r: Record, entry: Exon, isGtf: bool): Transcript
  {
    Transcript(key, Lookup(r.attributes, GeneIdAttr(isGtf)), Lookup(r.attributes, "gene_name"),
      None, None, None, false, [entry], FindBiotype(r.attributes, BiotypeKeys), [],
      Some(StrandSymbol(r)), r.seqname, [], [], None)
  }

  function AddLength(acc: Option<nat>, n: nat): Option<nat>
  {
    Some(acc.GetOr(0) + n)
  }

  predicate IsCdsType(t: string) { t == "CDS" }
  predicate IsUtr5Type(t: string) { t == "five_prime_utr" || t == "5UTR" }
  predicate IsUtr3Type(t: string) { t == "three_prime_utr" || t == "3UTR" }
  predicate IsTranscriptType(t: string) { t == "transcript" || t == "mRNA" }

  /** Feature types that the dispatch handles; every other type is counted as ignored. */
  predicate IsHandledType(t: string)
  {
    t == "exon" || IsCdsType(t) || IsUtr5Type(t) || IsUtr3Type(t) || IsTranscriptType(t) || t == "UTR"
  }

  /** The feature types that may create a transcript. */
  predicate IsCreatingType(t: string)
  {
    t == "exon" || t == "UTR"
  }

  const EmptyChunk := ChunkResult(map[], map[], {})

  /** The effect of one record on the chunk state, in the order of the checks of the loop
      body of `process_chunk`. */
  function ApplyRecord(st: ChunkResult, r: Record, isGtf: bool, hasVersion: bool): ChunkResult
  {
    if IsPar(r, isGtf) then
      st.(skippedParGenes := st.skippedParGenes + {r.attributes[GeneIdAttr(isGtf)]})
    else if TranscriptIdAttr(isGtf) !in r.attributes || r.start > r.end then st
    else st.(transcripts := DispatchTranscripts(st.transcripts, r, TranscriptKey(r, isGtf, hasVersion), isGtf),
             ignoredFeatures := DispatchIgnored(st.ignoredFeatures, r.featureType))
  }

  /** The `match record.feature_type()` of `process_chunk`, on the transcript map. */
  function DispatchTranscripts(ts: map<string, Transcript>, r: Record, key: string, isGtf: bool): map<string, Transcript>
    requires r.start <= r.end
  {
    var len := RecordLength(r);
    var t := r.featureType;
    if t == "exon" then
      var e := EntryOf(r);
      if key in ts then
        var prev := ts[key];
        ts[key := prev.(
          hasMissingFeatures := prev.hasMissingFeatures || prev.chromosome != e.seqId,
          exons := prev.exons + [e])]
      else ts[key := NewTranscript(key, r, e, isGtf)]
    else if IsCdsType(t) then
      if key in ts then
        ts[key := ts[key].(cdsLen := AddLength(ts[key].cdsLen, len),
          cdsStarts := ts[key].cdsStarts + [r.start], cdsEnds := ts[key].cdsEnds + [r.end])]
      else ts
    else if IsUtr5Type(t) then
      if key in ts then ts[key := ts[key].(utr5Len := AddLength(ts[key].utr5Len, len))] else ts
    else if IsUtr3Type(t) then
      if key in ts then ts[key := ts[key].(utr3Len := AddLength(ts[key].utr3Len, len))] else ts
    else if t == "UTR" then
      var e := EntryOf(r);
      if key in ts then ts[key := ts[key].(exons := ts[key].exons + [e])]
      else ts[key := NewTranscript(key, r, e, isGtf)]
    else ts
  }

  /** The `other` arm of the dispatch: one more occurrence of an unhandled feature type. */
  function DispatchIgnored(ignored: map<string, nat>, t: string): map<string, nat>
  {
    if IsHandledType(t) then ignored else ignored[t := CountOf(ignored, t) + 1]
  }

  /** The chunk state after the records of `rs`, in order. */
  function ChunkSpec(rs: seq<Record>, isGtf: bool, hasVersion: bool): ChunkResult
    decreases |rs|
  {
    if |rs| == 0 then EmptyChunk
    else ApplyRecord(ChunkSpec(rs[..|rs| - 1], isGtf, hasVersion), rs[|rs| - 1], isGtf, hasVersion)
  }

  /** `process_chunk`: one pass over the records of a chunk. */
  method ProcessChunk(chunk: seq<Record>, isGtf: bool, hasVersion: bool) returns (result: ChunkResult)
    ensures result == ChunkSpec(chunk, isGtf, hasVersion)
  {
    var transcripts: map<string, Transcript> := map[];
    var ignoredFeatures: map<string, nat> := map[];
    var skippedParGenes: set<string> := {};
    var i := 0;
    while i < |chunk|
      invariant 0 <= i <= |chunk|
      invariant ChunkResult(transcripts, ignoredFeatures, skippedParGenes) == ChunkSpec(chunk[..i], isGtf, hasVersion)
    {
      var record := chunk[i];
      assert chunk[..i + 1][..i] == chunk[..i];
      i := i + 1;
      var attributes := record.attributes;
      var transcriptIdAttr := if isGtf then "transcript_id" else "ID";
      var geneIdAttr := if isGtf then "gene_id" else "Parent";

      if geneIdAttr in attributes {
        var geneId := attributes[geneIdAttr];
        if Contains(geneId, ParMarker) {
          skippedParGenes := skippedParGenes + {geneId};
          continue;
        }
      }
      if transcriptIdAttr !in attributes {
        continue;
      }
      var transcriptIdWithVersion := attributes[transcriptIdAttr];
      var transcriptId := if hasVersion then transcriptIdWithVersion else StripVersion(transcriptIdWithVersion);
      if record.start > record.end {
        continue;
      }
      var featureLength := record.end - record.start + 1;
      assert transcriptId == TranscriptKey(record, isGtf, hasVersion);
      transcripts, ignoredFeatures := Dispatch(transcripts, ignoredFeatures, record, transcriptId, featureLength, isGtf);
    }
    assert chunk[..i] == chunk;
    result := ChunkResult(transcripts, ignoredFeatures, skippedParGenes);
  }

  /** The dispatch on the feature type in the body of `process_chunk`. */
  method Dispatch(transcripts: map<string, Transcript>, ignoredFeatures: map<string, nat>, record: Record,
                  transcriptId: string, featureLength: nat, isGtf: bool)
    returns (transcripts': map<string, Transcript>, ignoredFeatures': map<string, nat>)
    requires record.start <= record.end && featureLength == record.end - record.start + 1
    ensures transcripts' == DispatchTranscripts(transcripts, record, transcriptId, isGtf)
    ensures ignoredFeatures' == DispatchIgnored(ignoredFeatures, record.featureType)
  {
    transcripts', ignoredFeatures' := transcripts, ignoredFeatures;
    var featureType := record.featureType;
    if featureType == "exon" {
      var exon := EntryOf(record);
      if transcriptId in transcripts {
        var existing := transcripts[transcriptId];
        if existing.chromosome != exon.seqId {
          existing := existing.(hasMissingFeatures := true);
        }
        existing := existing.(exons := existing.exons + [exon]);
        transcripts' := transcripts[transcriptId := existing];
      } else {
        transcripts' := transcripts[transcriptId := NewTranscript(transcriptId, record, exon, isGtf)];
      }
    } else if featureType == "CDS" {
      if transcriptId in transcripts {
        var t := transcripts[transcriptId];
        t := t.(cdsLen := Some(t.cdsLen.GetOr(0) + featureLength));
        t := t.(cdsStarts := t.cdsStarts + [record.start], cdsEnds := t.cdsEnds + [record.end]);
        transcripts' := transcripts[transcriptId := t];
      }
    } else if featureType == "five_prime_utr" || featureType == "5UTR" {
      if transcriptId in transcripts {
        var t := transcripts[transcriptId];
        transcripts' := transcripts[transcriptId := t.(utr5Len := Some(t.utr5Len.GetOr(0) + featureLength))];
      }
    } else if featureType == "three_prime_utr" || featureType == "3UTR" {
      if transcriptId in transcripts {
        var t := transcripts[transcriptId];
        transcripts' := transcripts[transcriptId := t.(utr3Len := Some(t.utr3Len.GetOr(0) + featureLength))];
      }
    } else if featureType == "transcript" || featureType == "mRNA" {
      // transcript and mRNA records carry nothing the model keeps
    } else if featureType == "UTR" {
      var utrFeature := EntryOf(record);
      if transcriptId in transcripts {
        var existing := transcripts[transcriptId];
        transcripts' := transcripts[transcriptId := existing.(exons := existing.exons + [utrFeature])];
      } else {
        transcripts' := transcripts[transcriptId := NewTranscript(transcriptId, record, utrFeature, isGtf)];
      }
    } else {
      ignoredFeatures' := ignoredFeatures[featureType := CountOf(ignoredFeatures, featureType) + 1];
    }
  }

  // ---------------------------------------------------------------------------
  // one record

  /** A PAR record leaves the transcripts and the counters alone and only adds its gene id to
      the skipped set, whatever its transcript id, coordinates or type. */
  lemma ParRecordSkipped(st: ChunkResult, r: Record, isGtf: bool, hasVersion: bool)
    requires IsPar(r, isGtf)
    ensures ApplyRecord(st, r, isGtf, hasVersion)
      == st.(skippedParGenes := st.skippedParGenes + {r.attributes[GeneIdAttr(isGtf)]})
  {
  }

  /** A record without a transcript id, or with start > end, changes nothing. */
  lemma UndispatchedRecordIsNoop(st: ChunkResult, r: Record, isGtf: bool, hasVersion: bool)
    requires !IsPar(r, isGtf)
    requires TranscriptIdAttr(isGtf) !in r.attributes || r.start > r.end
    ensures ApplyRecord(st, r, isGtf, hasVersion) == st
  {
  }

  /** An `exon` record appends exactly one entry to the transcript of its key, creating the
      transcript from this record's attributes when the chunk has none; an existing transcript
      is flagged exactly when its chromosome differs from the record's sequence name. */
  lemma ExonRecordAppends(st: ChunkResult, r: Record, isGtf: bool, hasVersion: bool)
    requires Dispatched(r, isGtf) && r.featureType == "exon"
    ensures var key := TranscriptKey(r, isGtf, hasVersion);
      var ts, ts' := st.transcripts, ApplyRecord(st, r, isGtf, hasVersion).transcripts;
      && ts'.Keys == ts.Keys + {key}
      && (forall k :: k in ts && k != key ==> ts'[k] == ts[k])
      && ts'[key].exons == (if key in ts then ts[key].exons else []) + [EntryOf(r)]
      && Width(EntryOf(r)) == EntryOf(r).length
      && (key in ts ==> ts'[key] == ts[key].(exons := ts'[key].exons,
            hasMissingFeatures := ts[key].hasMissingFeatures || ts[key].chromosome != r.seqname))
      && (key !in ts ==>
            && ts'[key].transcriptId == key
            && ts'[key].geneId == Lookup(r.attributes, GeneIdAttr(isGtf))
            && ts'[key].geneName == Lookup(r.attributes, "gene_name")
            && ts'[key].biotype == FindBiotype(r.attributes, BiotypeKeys)
            && ts'[key].strand == Some(r.strand.GetOr("."))
            && ts'[key].chromosome == r.seqname
            && !ts'[key].hasMissingFeatures
            && ts'[key].cdsLen.None? && ts'[key].utr5Len.None? && ts'[key].utr3Len.None?)
    ensures ApplyRecord(st, r, isGtf, hasVersion).ignoredFeatures == st.ignoredFeatures
    ensures ApplyRecord(st, r, isGtf, hasVersion).skippedParGenes == st.skippedParGenes
  {
  }

  /** A `CDS` record only updates a transcript already in the chunk: it adds its length to
      `cdsLen` and appends its start and end. */
  lemma CdsRecordUpdatesExisting(st: ChunkResult, r: Record, isGtf: bool, hasVersion: bool)
    requires Dispatched(r, isGtf) && r.featureType == "CDS"
    ensures var key := TranscriptKey(r, isGtf, hasVersion);
      var ts, st' := st.transcripts, ApplyRecord(st, r, isGtf, hasVersion);
      && (key !in ts ==> st' == st)
      && (key in ts ==> st' == st.(transcripts := ts[key := ts[key].(
            cdsLen := Some(ts[key].cdsLen.GetOr(0) + (r.end - r.start + 1)),
            cdsStarts := ts[key].cdsStarts + [r.start],
            cdsEnds := ts[key].cdsEnds + [r.end])]))
  {
  }

  /** 5' and 3' UTR length records only add to the accumulator of an existing transcript. */
  lemma UtrLengthRecordUpdatesExisting(st: ChunkResult, r: Record, isGtf: bool, hasVersion: bool)
    requires Dispatched(r, isGtf) && (IsUtr5Type(r.featureType) || IsUtr3Type(r.featureType))
    ensures var key := TranscriptKey(r, isGtf, hasVersion);
      var ts, st' := st.transcripts, ApplyRecord(st, r, isGtf, hasVersion);
      var len := r.end - r.start + 1;
      && (key !in ts ==> st' == st)
      && (key in ts && IsUtr5Type(r.featureType) ==>
            st' == st.(transcripts := ts[key := ts[key].(utr5Len := Some(ts[key].utr5Len.GetOr(0) + len))]))
      && (key in ts && IsUtr3Type(r.featureType) ==>
            st' == st.(transcripts := ts[key := ts[key].(utr3Len := Some(ts[key].utr3Len.GetOr(0) + len))]))
  {
  }

  /** A `UTR` record is stored as a tagged entry and creates the transcript when it is absent;
      unlike `exon` it never touches the chromosome flag. */
  lemma UtrRecordStored(st: ChunkResult, r: Record, isGtf: bool, hasVersion: bool)
    requires Dispatched(r, isGtf) && r.featureType == "UTR"
    ensures var key := TranscriptKey(r, isGtf, hasVersion);
      var ts, ts' := st.transcripts, ApplyRecord(st, r, isGtf, hasVersion).transcripts;
      && ts'.Keys == ts.Keys + {key}
      && (forall k :: k in ts && k != key ==> ts'[k] == ts[k])
      && ts'[key].exons == (if key in ts then ts[key].exons else []) + [EntryOf(r)]
      && ts'[key].exons[|ts'[key].exons| - 1].feature == Some("UTR")
      && (key in ts ==> ts'[key] == ts[key].(exons := ts'[key].exons))
  {
    var key, ts := TranscriptKey(r, isGtf, hasVersion), st.transcripts;
    var e := EntryOf(r);
    assert ApplyRecord(st, r, isGtf, hasVersion).transcripts == DispatchTranscripts(ts, r, key, isGtf);
    assert DispatchTranscripts(ts, r, key, isGtf) ==
      if key in ts then ts[key := ts[key].(exons := ts[key].exons + [e])]
      else ts[key := NewTranscript(key, r, e, isGtf)];
  }

  /** `transcript` and `mRNA` records are dropped without a count. */
  lemma TranscriptRecordIsNoop(st: ChunkResult, r: Record, isGtf: bool, hasVersion: bool)
    requires !IsPar(r, isGtf) && IsTranscriptType(r.featureType)
    ensures ApplyRecord(st, r, isGtf, hasVersion) == st
  {
  }

  /** Any other feature type adds one to its ignored count and changes nothing else. */
  lemma OtherRecordCounted(st: ChunkResult, r: Record, isGtf: bool, hasVersion: bool)
    requires Dispatched(r, isGtf) && !IsHandledType(r.featureType)
    ensures var st' := ApplyRecord(st, r, isGtf, hasVersion);
      && st'.transcripts == st.transcripts && st'.skippedParGenes == st.skippedParGenes
      && CountOf(st'.ignoredFeatures, r.featureType) == CountOf(st.ignoredFeatures, r.featureType) + 1
      && forall t :: t != r.featureType ==> CountOf(st'.ignoredFeatures, t) == CountOf(st.ignoredFeatures, t)
  {
  }

  /** Only `exon` and `UTR` records can add a transcript; every other record keeps the key set. */
  lemma OnlyExonAndUtrCreate(st: ChunkResult, r: Record, isGtf: bool, hasVersion: bool)
    requires !(Dispatched(r, isGtf) && IsCreatingType(r.featureType))
    ensures ApplyRecord(st, r, isGtf, hasVersion).transcripts.Keys == st.transcripts.Keys
  {
  }

  // ---------------------------------------------------------------------------
  // a whole chunk

  /** Record `r` names PAR gene `g`. */
  predicate ParGeneOf(r: Record, isGtf: bool, g: string)
  {
    IsPar(r, isGtf) && r.attributes[GeneIdAttr(isGtf)] == g
  }

  /** Some record of `rs` names PAR gene `g`. */
  predicate NamesParGene(rs: seq<Record>, isGtf: bool, g: string)
  {
    exists i :: 0 <= i < |rs| && ParGeneOf(rs[i], isGtf, g)
  }

  lemma NamesParGeneAppend(a: seq<Record>, b: seq<Record>, isGtf: bool, g: string)
    ensures NamesParGene(a + b, isGtf, g) <==> NamesParGene(a, isGtf, g) || NamesParGene(b, isGtf, g)
  {
    if NamesParGene(a + b, isGtf, g) {
      var i :| 0 <= i < |a + b| && ParGeneOf((a + b)[i], isGtf, g);
      if i < |a| { assert a[i] == (a + b)[i]; } else { assert b[i - |a|] == (a + b)[i]; }
    }
    if NamesParGene(a, isGtf, g) {
      var i :| 0 <= i < |a| && ParGeneOf(a[i], isGtf, g);
      assert (a + b)[i] == a[i];
    }
    if NamesParGene(b, isGtf, g) {
      var i :| 0 <= i < |b| && ParGeneOf(b[i], isGtf, g);
      assert (a + b)[|a| + i] == b[i];
    }
  }

  /** The skipped set of a chunk is exactly the set of PAR gene ids its records name: each id
      appears once however many records repeat it. */
  lemma {:induction false} ChunkSkippedParGenes(rs: seq<Record>, isGtf: bool, hasVersion: bool, g: string)
    ensures g in ChunkSpec(rs, isGtf, hasVersion).skippedParGenes <==> NamesParGene(rs, isGtf, g)
    decreases |rs|
  {
    if |rs| > 0 {
      var init := rs[..|rs| - 1];
      ChunkSkippedParGenes(init, isGtf, hasVersion, g);
      assert rs == init + [rs[|rs| - 1]];
      NamesParGeneAppend(init, [rs[|rs| - 1]], isGtf, g);
    }
  }

  /** Number of records of `rs` that reach the dispatch with the unhandled type `t`. */
  function IgnoredOccurrences(rs: seq<Record>, isGtf: bool, t: string): nat
    decreases |rs|
  {
    if |rs| == 0 then 0
    else
      var r := rs[|rs| - 1];
      IgnoredOccurrences(rs[..|rs| - 1], isGtf, t)
        + (if Dispatched(r, isGtf) && r.featureType == t && !IsHandledType(t) then 1 else 0)
  }

  /** The ignored counter of a chunk counts, per type, the records that reach the `other` arm. */
  lemma {:induction false} ChunkIgnoredCounts(rs: seq<Record>, isGtf: bool, hasVersion: bool, t: string)
    ensures CountOf(ChunkSpec(rs, isGtf, hasVersion).ignoredFeatures, t) == IgnoredOccurrences(rs, isGtf, t)
    decreases |rs|
  {
    if |rs| > 0 {
      ChunkIgnoredCounts(rs[..|rs| - 1], isGtf, hasVersion, t);
    }
  }

  /** Record `r` creates or extends the entries of transcript `k`. */
  predicate CreatesKey(r: Record, isGtf: bool, hasVersion: bool, k: string)
  {
    Dispatched(r, isGtf) && IsCreatingType(r.featureType) && TranscriptKey(r, isGtf, hasVersion) == k
  }

  /** One record adds key `k` exactly when it is an `exon` or `UTR` record of `k`, and adds
      one entry to `k` exactly then. */
  lemma ApplyRecordEntries(st: ChunkResult, r: Record, isGtf: bool, hasVersion: bool, k: string)
    ensures var ts, ts' := st.transcripts, ApplyRecord(st, r, isGtf, hasVersion).transcripts;
      && (k in ts' <==> k in ts || CreatesKey(r, isGtf, hasVersion, k))
      && (k in ts' ==> |ts'[k].exons| == (if k in ts then |ts[k].exons| else 0)
                                         + (if CreatesKey(r, isGtf, hasVersion, k) then 1 else 0))
  {
    if Dispatched(r, isGtf) && r.featureType == "exon" {
      ExonRecordAppends(st, r, isGtf, hasVersion);
    } else if Dispatched(r, isGtf) && r.featureType == "UTR" {
      UtrRecordStored(st, r, isGtf, hasVersion);
    } else if Dispatched(r, isGtf) {
      var ts, key := st.transcripts, TranscriptKey(r, isGtf, hasVersion);
      var ts' := DispatchTranscripts(ts, r, key, isGtf);
      assert ApplyRecord(st, r, isGtf, hasVersion).transcripts == ts';
      assert ts'.Keys == ts.Keys && (k in ts ==> ts'[k].exons == ts[k].exons);
    }
  }

  /** A chunk holds a transcript exactly for the keys of its `exon` and `UTR` records. */
  lemma {:induction false} ChunkKeys(rs: seq<Record>, isGtf: bool, hasVersion: bool, k: string)
    ensures k in ChunkSpec(rs, isGtf, hasVersion).transcripts
      <==> exists i :: 0 <= i < |rs| && CreatesKey(rs[i], isGtf, hasVersion, k)
    decreases |rs|
  {
    if |rs| > 0 {
      var init, r := rs[..|rs| - 1], rs[|rs| - 1];
      ChunkKeys(init, isGtf, hasVersion, k);
      ApplyRecordEntries(ChunkSpec(init, isGtf, hasVersion), r, isGtf, hasVersion, k);
      if exists i :: 0 <= i < |init| && CreatesKey(init[i], isGtf, hasVersion, k) {
        var i :| 0 <= i < |init| && CreatesKey(init[i], isGtf, hasVersion, k);
        assert rs[i] == init[i];
      }
      if exists i :: 0 <= i < |rs| && CreatesKey(rs[i], isGtf, hasVersion, k) {
        var i :| 0 <= i < |rs| && CreatesKey(rs[i], isGtf, hasVersion, k);
        if i < |init| { assert init[i] == rs[i]; }
      }
    }
  }

  /** Number of records of `rs` that add an entry to transcript `k`. */
  function EntryRecords(rs: seq<Record>, isGtf: bool, hasVersion: bool, k: string): nat
    decreases |rs|
  {
    if |rs| == 0 then 0
    else
      EntryRecords(rs[..|rs| - 1], isGtf, hasVersion, k)
        + (if CreatesKey(rs[|rs| - 1], isGtf, hasVersion, k) then 1 else 0)
  }

  /** Every `exon` and `UTR` record of a transcript contributes exactly one stored entry. */
  lemma {:induction false} ChunkEntryCount(rs: seq<Record>, isGtf: bool, hasVersion: bool, k: string)
    ensures var ts := ChunkSpec(rs, isGtf, hasVersion).transcripts;
      (k in ts ==> |ts[k].exons| == EntryRecords(rs, isGtf, hasVersion, k))
      && (k !in ts ==> EntryRecords(rs, isGtf, hasVersion, k) == 0)
    decreases |rs|
  {
    if |rs| > 0 {
      var init, r := rs[..|rs| - 1], rs[|rs| - 1];
      ChunkEntryCount(init, isGtf, hasVersion, k);
      ApplyRecordEntries(ChunkSpec(init, isGtf, hasVersion), r, isGtf, hasVersion, k);
    }
  }

  /** The invariant every stored transcript keeps: entries carry their width and their tag,
      and CDS starts and ends come in pairs with start <= end. */
  predicate EntryWellFormed(e: Exon)
  {
    e.start <= e.end && e.length == e.end - e.start + 1 && e.feature == Some(e.featureType)
  }

  predicate TranscriptWellFormed(t: Transcript)
  {
    && (forall i :: 0 <= i < |t.exons| ==> EntryWellFormed(t.exons[i]))
    && |t.cdsStarts| == |t.cdsEnds|
    && (forall i :: 0 <= i < |t.cdsStarts| ==> t.cdsStarts[i] <= t.cdsEnds[i])
  }

  predicate AllTranscriptsWellFormed(ts: map<string, Transcript>)
  {
    forall k :: k in ts ==> TranscriptWellFormed(ts[k])
  }

  /** Processing a record keeps every transcript well formed. */
  lemma ApplyRecordWellFormed(st: ChunkResult, r: Record, isGtf: bool, hasVersion: bool)
    requires AllTranscriptsWellFormed(st.transcripts)
    ensures AllTranscriptsWellFormed(ApplyRecord(st, r, isGtf, hasVersion).transcripts)
  {
    if Dispatched(r, isGtf) {
      var key := TranscriptKey(r, isGtf, hasVersion);
      var ts := st.transcripts;
      var ts' := DispatchTranscripts(ts, r, key, isGtf);
      assert ApplyRecord(st, r, isGtf, hasVersion).transcripts == ts';
      DispatchKeyWellFormed(ts, r, key, isGtf);
      forall k | k in ts' ensures TranscriptWellFormed(ts'[k]) {
        if k != key {
          assert k in ts && ts'[k] == ts[k];
        }
      }
    }
  }

  /** The transcript a dispatched record touches stays well formed. */
  lemma DispatchKeyWellFormed(ts: map<string, Transcript>, r: Record, key: string, isGtf: bool)
    requires r.start <= r.end && (key in ts ==> TranscriptWellFormed(ts[key]))
    ensures key in DispatchTranscripts(ts, r, key, isGtf) ==> TranscriptWellFormed(DispatchTranscripts(ts, r, key, isGtf)[key])
  {
    var t := r.featureType;
    if key in ts && (t == "exon" || t == "UTR") {
      AppendEntryWellFormed(ts[key], DispatchTranscripts(ts, r, key, isGtf)[key], EntryOf(r));
    } else if key in ts && IsCdsType(t) {
      AppendCdsWellFormed(ts[key], DispatchTranscripts(ts, r, key, isGtf)[key], r.start, r.end);
    }
  }

  lemma AppendEntryWellFormed(prev: Transcript, next: Transcript, e: Exon)
    requires TranscriptWellFormed(prev) && EntryWellFormed(e)
    requires next.exons == prev.exons + [e] && next.cdsStarts == prev.cdsStarts && next.cdsEnds == prev.cdsEnds
    ensures TranscriptWellFormed(next)
  {
    forall i | 0 <= i < |next.exons| ensures EntryWellFormed(next.exons[i]) {
      if i < |prev.exons| { assert next.exons[i] == prev.exons[i]; }
    }
  }

  lemma AppendCdsWellFormed(prev: Transcript, next: Transcript, start: nat, end: nat)
    requires TranscriptWellFormed(prev) && start <= end
    requires next.exons == prev.exons && next.cdsStarts == prev.cdsStarts + [start] && next.cdsEnds == prev.cdsEnds + [end]
    ensures TranscriptWellFormed(next)
  {
    forall i | 0 <= i < |next.cdsStarts| ensures next.cdsStarts[i] <= next.cdsEnds[i] {
      if i < |prev.cdsStarts| { assert next.cdsStarts[i] == prev.cdsStarts[i] && next.cdsEnds[i] == prev.cdsEnds[i]; }
    }
  }

  /** Every transcript of a chunk is well formed. */
  lemma {:induction false} ChunkWellFormed(rs: seq<Record>, isGtf: bool, hasVersion: bool)
    ensures AllTranscriptsWellFormed(ChunkSpec(rs, isGtf, hasVersion).transcripts)
    decreases |rs|
  {
    if |rs| > 0 {
      ChunkWellFormed(rs[..|rs| - 1], isGtf, hasVersion);
      ApplyRecordWellFormed(ChunkSpec(rs[..|rs| - 1], isGtf, hasVersion), rs[|rs| - 1], isGtf, hasVersion);
    }
  }

  // ---------------------------------------------------------------------------
  // merging the chunk results

  /** `and_modify` of the merge: the later chunk's entries and CDS coordinates are appended and
      its lengths added, absent lengths counting as 0; everything else stays as first seen. */
  function MergeTranscript(existing: Transcript, t: Transcript): Transcript
  {
    existing.(
      exons := existing.exons + t.exons,
      cdsStarts := existing.cdsStarts + t.cdsStarts,
      cdsEnds := existing.cdsEnds + t.cdsEnds,
      cdsLen := AddLength(existing.cdsLen, t.cdsLen.GetOr(0)),
      utr5Len := AddLength(existing.utr5Len, t.utr5Len.GetOr(0)),
      utr3Len := AddLength(existing.utr3Len, t.utr3Len.GetOr(0)))
  }

  /** The merged transcript map after one more chunk. */
  function MergeTranscripts(acc: map<string, Transcript>, chunk: map<string, Transcript>): (m: map<string, Transcript>)
    ensures m.Keys == acc.Keys + chunk.Keys
  {
    map k | k in acc.Keys + chunk.Keys ::
      if k in acc && k in chunk then MergeTranscript(acc[k], chunk[k])
      else if k in acc then acc[k] else chunk[k]
  }

  /** The merged counters after one more chunk. */
  function AddCounts(acc: map<string, nat>, counts: map<string, nat>): (m: map<string, nat>)
    ensures forall t :: CountOf(m, t) == CountOf(acc, t) + CountOf(counts, t)
  {
    map k | k in acc.Keys + counts.Keys :: CountOf(acc, k) + CountOf(counts, k)
  }

  function MergeResult(acc: ChunkResult, c: ChunkResult): ChunkResult
  {
    ChunkResult(MergeTranscripts(acc.transcripts, c.transcripts),
      AddCounts(acc.ignoredFeatures, c.ignoredFeatures),
      acc.skippedParGenes + c.skippedParGenes)
  }

  /** The merge of the chunk results in chunk order. */
  function MergeAll(results: seq<ChunkResult>): ChunkResult
    decreases |results|
  {
    if |results| == 0 then EmptyChunk
    else MergeResult(MergeAll(results[..|results| - 1]), results[|results| - 1])
  }

  /** The inner `for (id, transcript) in chunk_transcripts` loop: `HashMap` order is arbitrary,
      and any order gives the same map. */
  method MergeChunkTranscripts(acc: map<string, Transcript>, chunk: map<string, Transcript>)
    returns (merged: map<string, Transcript>)
    ensures merged == MergeTranscripts(acc, chunk)
  {
    merged := acc;
    var todo := chunk.Keys;
    while todo != {}
      invariant todo <= chunk.Keys
      invariant merged == MergeTranscripts(acc, chunk - todo)
      decreases todo
    {
      var id :| id in todo;
      var transcript := chunk[id];
      ghost var done := chunk - todo;
      assert id in merged <==> id in acc;
      if id in merged {
        var existing := merged[id];
        existing := existing.(exons := existing.exons + transcript.exons);
        existing := existing.(cdsStarts := existing.cdsStarts + transcript.cdsStarts);
        existing := existing.(cdsEnds := existing.cdsEnds + transcript.cdsEnds);
        existing := existing.(cdsLen := Some(existing.cdsLen.GetOr(0) + transcript.cdsLen.GetOr(0)));
        existing := existing.(utr5Len := Some(existing.utr5Len.GetOr(0) + transcript.utr5Len.GetOr(0)));
        existing := existing.(utr3Len := Some(existing.utr3Len.GetOr(0) + transcript.utr3Len.GetOr(0)));
        assert merged[id] == acc[id];
        MergeTranscriptsStep(acc, done, id, transcript, existing);
        merged := merged[id := existing];
      } else {
        MergeTranscriptsStep(acc, done, id, transcript, transcript);
        merged := merged[id := transcript];
      }
      todo := todo - {id};
      assert chunk - todo == done[id := transcript];
    }
    assert chunk - todo == chunk;
  }

  /** Merging one more transcript of a chunk into the merged map. */
  lemma MergeTranscriptsStep(acc: map<string, Transcript>, done: map<string, Transcript>, id: string, t: Transcript, v: Transcript)
    requires id !in done && v == if id in acc then MergeTranscript(acc[id], t) else t
    ensures MergeTranscripts(acc, done[id := t]) == MergeTranscripts(acc, done)[id := v]
  {
    var before := MergeTranscripts(acc, done);
    var after := MergeTranscripts(acc, done[id := t]);
    var expected := before[id := v];
    assert after.Keys == expected.Keys;
    forall k | k in after
      ensures after[k] == expected[k]
    {
      if k != id {
        assert after[k] == before[k];
      }
    }
  }

  /** The inner `for (feature, count) in chunk_ignored` loop. */
  method AddChunkCounts(acc: map<string, nat>, counts: map<string, nat>) returns (total: map<string, nat>)
    ensures total == AddCounts(acc, counts)
  {
    total := acc;
    var todo := counts.Keys;
    while todo != {}
      invariant todo <= counts.Keys
      invariant total == AddCounts(acc, counts - todo)
      decreases todo
    {
      var feature :| feature in todo;
      ghost var done := counts - todo;
      total := total[feature := CountOf(total, feature) + counts[feature]];
      todo := todo - {feature};
      assert counts - todo == done[feature := counts[feature]];
    }
    assert counts - todo == counts;
  }

  /** The merge loop of `read_annotation_file`. */
  method MergeChunkResults(results: seq<ChunkResult>) returns (merged: ChunkResult)
    ensures merged == MergeAll(results)
  {
    var transcripts: map<string, Transcript> := map[];
    var ignoredFeatures: map<string, nat> := map[];
    var skippedParGenes: set<string> := {};
    for i := 0 to |results|
      invariant ChunkResult(transcripts, ignoredFeatures, skippedParGenes) == MergeAll(results[..i])
    {
      assert results[..i + 1][..i] == results[..i];
      var chunkResult := results[i];
      transcripts := MergeChunkTranscripts(transcripts, chunkResult.transcripts);
      ignoredFeatures := AddChunkCounts(ignoredFeatures, chunkResult.ignoredFeatures);
      skippedParGenes := skippedParGenes + chunkResult.skippedParGenes;
    }
    assert results[..|results|] == results;
    merged := ChunkResult(transcripts, ignoredFeatures, skippedParGenes);
  }

  // ---------------------------------------------------------------------------
  // what the merge promises

  /** Index of the first chunk result that holds transcript `k`. */
  function FirstChunkWith(rs: seq<ChunkResult>, k: string): (i: nat)
    requires exists j :: 0 <= j < |rs| && k in rs[j].transcripts
    ensures i < |rs| && k in rs[i].transcripts
    ensures forall j :: 0 <= j < i ==> k !in rs[j].transcripts
    decreases |rs|
  {
    if k in rs[0].transcripts then 0
    else
      assert exists j :: 0 <= j < |rs[1..]| && k in rs[1..][j].transcripts by {
        var j :| 0 <= j < |rs| && k in rs[j].transcripts;
        assert rs[1..][j - 1] == rs[j];
      }
      var i := FirstChunkWith(rs[1..], k);
      assert forall j :: 1 <= j < i + 1 ==> rs[j] == rs[1..][j - 1];
      1 + i
  }

  /** Number of chunk results that hold transcript `k`. */
  function ChunksWith(rs: seq<ChunkResult>, k: string): nat
    decreases |rs|
  {
    if |rs| == 0 then 0
    else ChunksWith(rs[..|rs| - 1], k) + (if k in rs[|rs| - 1].transcripts then 1 else 0)
  }

  /** The entries of transcript `k` across the chunks, in chunk order. */
  function ExonsAcross(rs: seq<ChunkResult>, k: string): seq<Exon>
    decreases |rs|
  {
    if |rs| == 0 then []
    else
      var last := rs[|rs| - 1].transcripts;
      ExonsAcross(rs[..|rs| - 1], k) + (if k in last then last[k].exons else [])
  }

  function CdsStartsAcross(rs: seq<ChunkResult>, k: string): seq<nat>
    decreases |rs|
  {
    if |rs| == 0 then []
    else
      var last := rs[|rs| - 1].transcripts;
      CdsStartsAcross(rs[..|rs| - 1], k) + (if k in last then last[k].cdsStarts else [])
  }

  function CdsEndsAcross(rs: seq<ChunkResult>, k: string): seq<nat>
    decreases |rs|
  {
    if |rs| == 0 then []
    else
      var last := rs[|rs| - 1].transcripts;
      CdsEndsAcross(rs[..|rs| - 1], k) + (if k in last then last[k].cdsEnds else [])
  }

  /** The three length accumulators of a transcript. */
  datatype LengthKind = Cds | Utr5 | Utr3

  function LengthOf(t: Transcript, kind: LengthKind): Option<nat>
  {
    match kind
    case Cds => t.cdsLen
    case Utr5 => t.utr5Len
    case Utr3 => t.utr3Len
  }

  /** The sum of one length of transcript `k` over the chunks, absent values counting as 0. */
  function LengthAcross(rs: seq<ChunkResult>, k: string, kind: LengthKind): nat
    decreases |rs|
  {
    if |rs| == 0 then 0
    else
      var last := rs[|rs| - 1].transcripts;
      LengthAcross(rs[..|rs| - 1], k, kind) + (if k in last then LengthOf(last[k], kind).GetOr(0) else 0)
  }

  /** A transcript with the merged fields blanked out: what the first chunk decides. */
  function Metadata(t: Transcript): Transcript
  {
    t.(exons := [], cdsStarts := [], cdsEnds := [], cdsLen := None, utr5Len := None, utr3Len := None)
  }

  /** The merged map holds a transcript exactly for the ids some chunk holds. */
  lemma {:induction false} MergeAllKeys(rs: seq<ChunkResult>, k: string)
    ensures k in MergeAll(rs).transcripts <==> exists i :: 0 <= i < |rs| && k in rs[i].transcripts
    decreases |rs|
  {
    if |rs| > 0 {
      var init := rs[..|rs| - 1];
      MergeAllKeys(init, k);
      if exists i :: 0 <= i < |init| && k in init[i].transcripts {
        var i :| 0 <= i < |init| && k in init[i].transcripts;
        assert rs[i] == init[i];
      }
      if exists i :: 0 <= i < |rs| && k in rs[i].transcripts {
        var i :| 0 <= i < |rs| && k in rs[i].transcripts;
        if i < |init| { assert init[i] == rs[i]; }
      }
    }
  }

  /** Entries and CDS coordinates of an id seen in several chunks are concatenated in chunk
      order, and each length becomes the sum over the chunks. */
  lemma {:induction false} MergeAllConcatenates(rs: seq<ChunkResult>, k: string, kind: LengthKind)
    ensures var m := MergeAll(rs).transcripts;
      && (k in m ==> m[k].exons == ExonsAcross(rs, k) && m[k].cdsStarts == CdsStartsAcross(rs, k)
                     && m[k].cdsEnds == CdsEndsAcross(rs, k)
                     && LengthOf(m[k], kind).GetOr(0) == LengthAcross(rs, k, kind))
      && (k !in m ==> ExonsAcross(rs, k) == [] && CdsStartsAcross(rs, k) == [] && CdsEndsAcross(rs, k) == []
                      && LengthAcross(rs, k, kind) == 0)
    decreases |rs|
  {
    if |rs| > 0 {
      var init := rs[..|rs| - 1];
      MergeAllConcatenates(init, k, kind);
      var acc, last := MergeAll(init).transcripts, rs[|rs| - 1].transcripts;
      var m := MergeAll(rs).transcripts;
      if k in acc && k !in last {
        assert m[k] == acc[k];
        assert ExonsAcross(rs, k) == ExonsAcross(init, k) + [];
        assert CdsStartsAcross(rs, k) == CdsStartsAcross(init, k) + [];
        assert CdsEndsAcross(rs, k) == CdsEndsAcross(init, k) + [];
      } else if k !in acc && k in last {
        assert m[k] == last[k];
        assert ExonsAcross(rs, k) == [] + last[k].exons;
        assert CdsStartsAcross(rs, k) == [] + last[k].cdsStarts;
        assert CdsEndsAcross(rs, k) == [] + last[k].cdsEnds;
      }
    }
  }

  /** An id seen in two or more chunks ends with every length present. */
  lemma {:induction false} MergeAllLengthsPresent(rs: seq<ChunkResult>, k: string, kind: LengthKind)
    requires ChunksWith(rs, k) >= 2
    ensures k in MergeAll(rs).transcripts && LengthOf(MergeAll(rs).transcripts[k], kind).Some?
    decreases |rs|
  {
    var init := rs[..|rs| - 1];
    MergeAllChunksWith(init, k);
    if ChunksWith(init, k) >= 2 {
      MergeAllLengthsPresent(init, k, kind);
    }
  }

  /** An id is in the merged map exactly when some chunk holds it. */
  lemma {:induction false} MergeAllChunksWith(rs: seq<ChunkResult>, k: string)
    ensures k in MergeAll(rs).transcripts <==> ChunksWith(rs, k) > 0
    decreases |rs|
  {
    if |rs| > 0 {
      MergeAllChunksWith(rs[..|rs| - 1], k);
    }
  }

  /** The merged transcript keeps the metadata of the first chunk that held the id, and an id
      held by a single chunk is taken over unchanged. */
  lemma {:induction false} MergeAllFirstSeen(rs: seq<ChunkResult>, k: string)
    requires exists i :: 0 <= i < |rs| && k in rs[i].transcripts
    ensures k in MergeAll(rs).transcripts
    ensures Metadata(MergeAll(rs).transcripts[k]) == Metadata(rs[FirstChunkWith(rs, k)].transcripts[k])
    ensures ChunksWith(rs, k) == 1 ==> MergeAll(rs).transcripts[k] == rs[FirstChunkWith(rs, k)].transcripts[k]
    decreases |rs|
  {
    var init := rs[..|rs| - 1];
    var first := FirstChunkWith(rs, k);
    MergeAllKeys(rs, k);
    MergeAllChunksWith(init, k);
    if exists i :: 0 <= i < |init| && k in init[i].transcripts {
      MergeAllFirstSeen(init, k);
      var f := FirstChunkWith(init, k);
      assert init[f] == rs[f];
      assert forall j :: 0 <= j < f ==> rs[j] == init[j];
      assert f == first;
      if ChunksWith(rs, k) == 1 {
        MergeAllKeys(init, k);
      }
    } else {
      MergeAllKeys(init, k);
      assert forall j :: 0 <= j < |init| ==> rs[j] == init[j];
      assert first == |rs| - 1;
    }
  }

  /** Sum of the ignored counts of type `t` over the chunks. */
  function CountAcross(rs: seq<ChunkResult>, t: string): nat
    decreases |rs|
  {
    if |rs| == 0 then 0 else CountAcross(rs[..|rs| - 1], t) + CountOf(rs[|rs| - 1].ignoredFeatures, t)
  }

  /** Ignored counts are summed over the chunks and the skipped sets are united. */
  lemma {:induction false} MergeAllCounters(rs: seq<ChunkResult>, t: string, g: string)
    ensures CountOf(MergeAll(rs).ignoredFeatures, t) == CountAcross(rs, t)
    ensures g in MergeAll(rs).skippedParGenes <==> exists i :: 0 <= i < |rs| && g in rs[i].skippedParGenes
    decreases |rs|
  {
    if |rs| > 0 {
      var init := rs[..|rs| - 1];
      MergeAllCounters(init, t, g);
      if exists i :: 0 <= i < |init| && g in init[i].skippedParGenes {
        var i :| 0 <= i < |init| && g in init[i].skippedParGenes;
        assert rs[i] == init[i];
      }
      if exists i :: 0 <= i < |rs| && g in rs[i].skippedParGenes {
        var i :| 0 <= i < |rs| && g in rs[i].skippedParGenes;
        if i < |init| { assert init[i] == rs[i]; }
      }
    }
  }

  /** Merging well-formed chunk results gives well-formed transcripts. */
  lemma {:induction false} MergeAllWellFormed(rs: seq<ChunkResult>)
    requires forall i :: 0 <= i < |rs| ==> AllTranscriptsWellFormed(rs[i].transcripts)
    ensures AllTranscriptsWellFormed(MergeAll(rs).transcripts)
    decreases |rs|
  {
    if |rs| > 0 {
      var init := rs[..|rs| - 1];
      MergeAllWellFormed(init);
      var acc, last := MergeAll(init).transcripts, rs[|rs| - 1].transcripts;
      forall k | k in acc && k in last ensures TranscriptWellFormed(MergeTranscript(acc[k], last[k])) {
        var a, b := acc[k], last[k];
        var m := MergeTranscript(a, b);
        assert TranscriptWellFormed(a) && TranscriptWellFormed(b);
        forall i | 0 <= i < |m.exons| ensures EntryWellFormed(m.exons[i]) {
          if i >= |a.exons| { assert m.exons[i] == b.exons[i - |a.exons|]; }
        }
        forall i | 0 <= i < |m.cdsStarts| ensures m.cdsStarts[i] <= m.cdsEnds[i] {
          if i >= |a.cdsStarts| {
            assert m.cdsStarts[i] == b.cdsStarts[i - |a.cdsStarts|];
            assert m.cdsEnds[i] == b.cdsEnds[i - |a.cdsEnds|];
          }
        }
      }
    }
  }

  // ---------------------------------------------------------------------------
  // finalisation

  /** The entry is an exon (`feature == Some("exon")`), not a UTR. */
  predicate IsExonFeature(e: Exon)
  {
    e.feature == Some("exon")
  }

  /** `filter(|exon| exon.feature == "exon")`, in stored order. */
  function ExonFeatures(entries: seq<Exon>): (r: seq<Exon>)
    ensures |r| <= |entries|
    ensures forall i :: 0 <= i < |r| ==> IsExonFeature(r[i]) && r[i] in entries
    ensures (forall i :: 0 <= i < |entries| ==> IsExonFeature(entries[i])) ==> r == entries
    decreases |entries|
  {
    if |entries| == 0 then []
    else
      var init, last := entries[..|entries| - 1], entries[|entries| - 1];
      var r := ExonFeatures(init);
      assert forall e :: e in init ==> e in entries;
      if IsExonFeature(last) then r + [last] else r
  }

  /** utr5 + cds + (3 for the stop codon when there is a CDS) + utr3. */
  function ExpectedLength(t: Transcript): nat
  {
    t.utr5Len.GetOr(0) + t.cdsLen.GetOr(0) + (if t.cdsLen.GetOr(0) > 0 then 3 else 0) + t.utr3Len.GetOr(0)
  }

  /** Some length accumulator is positive, so the check runs. */
  predicate HasAnyLength(t: Transcript)
  {
    t.cdsLen.GetOr(0) > 0 || t.utr5Len.GetOr(0) > 0 || t.utr3Len.GetOr(0) > 0
  }

  /** The outcome of `check_transcript_length`; the last two are the two warnings. */
  datatype LengthCheck = NotChecked | Consistent | StopCodonOffset | Inconsistent

  function LengthCheckOf(t: Transcript): (c: LengthCheck)
    ensures c == NotChecked <==> !HasAnyLength(t)
    ensures c == Consistent <==> HasAnyLength(t) && SumLengths(t.exons) == ExpectedLength(t)
    ensures c == StopCodonOffset <==>
      (HasAnyLength(t) && (SumLengths(t.exons) == ExpectedLength(t) + 3 || ExpectedLength(t) == SumLengths(t.exons) + 3))
  {
    if !HasAnyLength(t) then NotChecked
    else
      var total, expected := SumLengths(t.exons), ExpectedLength(t);
      var difference := if total > expected then total - expected else expected - total;
      if total == expected then Consistent
      else if difference == 3 then StopCodonOffset
      else Inconsistent
  }

  /** `check_transcript_length`: sets the flag exactly when some length is positive and the
      sum over all stored entries differs from the expected length; a difference of 3 only
      changes the warning; the flag is never cleared and nothing else changes. */
  function CheckTranscriptLength(t: Transcript): (r: Transcript)
    ensures r == t.(hasMissingFeatures := r.hasMissingFeatures)
    ensures r.hasMissingFeatures
      <==> t.hasMissingFeatures || (HasAnyLength(t) && SumLengths(t.exons) != ExpectedLength(t))
  {
    match LengthCheckOf(t)
    case StopCodonOffset => t.(hasMissingFeatures := true)
    case Inconsistent => t.(hasMissingFeatures := true)
    case _ => t
  }

  /** Where a GFF3 `UTR` entry falls relative to the CDS span. */
  datatype UtrClass = FivePrime | ThreePrime | Unclassified

  function ClassifyUtr(e: Exon, strand: string, cdsStart: nat, cdsEnd: nat): UtrClass
  {
    if strand == "+" || strand == "." then
      if e.end < cdsStart then FivePrime else if e.start > cdsEnd then ThreePrime else Unclassified
    else if strand == "-" then
      if e.start > cdsEnd then FivePrime else if e.end < cdsStart then ThreePrime else Unclassified
    else Unclassified
  }

  function Mirror(c: UtrClass): UtrClass
  {
    match c
    case FivePrime => ThreePrime
    case ThreePrime => FivePrime
    case Unclassified => Unclassified
  }

  /** For an entry with start <= end and a CDS span with start <= end, "-" swaps the roles of
      5' and 3' of "+" (which is also the rule for "."); an entry overlapping the span, or
      any other strand, is never classified. */
  lemma ClassifyUtrStrands(e: Exon, cdsStart: nat, cdsEnd: nat, strand: string)
    requires e.start <= e.end && cdsStart <= cdsEnd
    ensures ClassifyUtr(e, "-", cdsStart, cdsEnd) == Mirror(ClassifyUtr(e, "+", cdsStart, cdsEnd))
    ensures ClassifyUtr(e, ".", cdsStart, cdsEnd) == ClassifyUtr(e, "+", cdsStart, cdsEnd)
    ensures e.end >= cdsStart && e.start <= cdsEnd ==> ClassifyUtr(e, strand, cdsStart, cdsEnd) == Unclassified
    ensures strand != "+" && strand != "-" && strand != "." ==> ClassifyUtr(e, strand, cdsStart, cdsEnd) == Unclassified
  {
  }

  /** The UTR loop of the finalisation over `entries`, from the accumulators `(utr5, utr3)`. */
  function UtrPass(entries: seq<Exon>, strand: string, cdsStart: nat, cdsEnd: nat,
                   utr5: Option<nat>, utr3: Option<nat>): (Option<nat>, Option<nat>)
    decreases |entries|
  {
    if |entries| == 0 then (utr5, utr3)
    else
      var (a, b) := UtrPass(entries[..|entries| - 1], strand, cdsStart, cdsEnd, utr5, utr3);
      var e := entries[|entries| - 1];
      if e.featureType != "UTR" then (a, b)
      else match ClassifyUtr(e, strand, cdsStart, cdsEnd)
        case FivePrime => (AddLength(a, e.length), b)
        case ThreePrime => (a, AddLength(b, e.length))
        case Unclassified => (a, b)
  }

  /** Total length of the `UTR` entries of a class. */
  function ClassLength(entries: seq<Exon>, strand: string, cdsStart: nat, cdsEnd: nat, c: UtrClass): nat
    decreases |entries|
  {
    if |entries| == 0 then 0
    else
      var e := entries[0];
      (if e.featureType == "UTR" && ClassifyUtr(e, strand, cdsStart, cdsEnd) == c then e.length else 0)
        + ClassLength(entries[1..], strand, cdsStart, cdsEnd, c)
  }

  /** The entry at `i` is a `UTR` of class `c`. */
  predicate UtrOfClassAt(entries: seq<Exon>, i: int, strand: string, cdsStart: nat, cdsEnd: nat, c: UtrClass)
  {
    0 <= i < |entries| && entries[i].featureType == "UTR" && ClassifyUtr(entries[i], strand, cdsStart, cdsEnd) == c
  }

  lemma {:induction false} ClassLengthLast(entries: seq<Exon>, strand: string, cdsStart: nat, cdsEnd: nat, c: UtrClass)
    requires |entries| > 0
    ensures var e := entries[|entries| - 1];
      ClassLength(entries, strand, cdsStart, cdsEnd, c)
        == ClassLength(entries[..|entries| - 1], strand, cdsStart, cdsEnd, c)
           + (if e.featureType == "UTR" && ClassifyUtr(e, strand, cdsStart, cdsEnd) == c then e.length else 0)
    decreases |entries|
  {
    if |entries| > 1 {
      ClassLengthLast(entries[1..], strand, cdsStart, cdsEnd, c);
      assert entries[1..][..|entries[1..]| - 1] == entries[..|entries| - 1][1..];
    }
  }

  /** The UTR loop adds to `utr5Len` the lengths of the 5' UTR entries and to `utr3Len` those
      of the 3' ones; an accumulator becomes present exactly when it was or some entry of its
      class exists. */
  lemma {:induction false} UtrPassTotals(entries: seq<Exon>, strand: string, cdsStart: nat, cdsEnd: nat,
                                         utr5: Option<nat>, utr3: Option<nat>)
    ensures var (a, b) := UtrPass(entries, strand, cdsStart, cdsEnd, utr5, utr3);
      && a.GetOr(0) == utr5.GetOr(0) + ClassLength(entries, strand, cdsStart, cdsEnd, FivePrime)
      && b.GetOr(0) == utr3.GetOr(0) + ClassLength(entries, strand, cdsStart, cdsEnd, ThreePrime)
      && (a.Some? <==> utr5.Some? || exists i :: UtrOfClassAt(entries, i, strand, cdsStart, cdsEnd, FivePrime))
      && (b.Some? <==> utr3.Some? || exists i :: UtrOfClassAt(entries, i, strand, cdsStart, cdsEnd, ThreePrime))
    decreases |entries|
  {
    if |entries| > 0 {
      var init := entries[..|entries| - 1];
      UtrPassTotals(init, strand, cdsStart, cdsEnd, utr5, utr3);
      ClassLengthLast(entries, strand, cdsStart, cdsEnd, FivePrime);
      ClassLengthLast(entries, strand, cdsStart, cdsEnd, ThreePrime);
      UtrOfClassLast(entries, strand, cdsStart, cdsEnd, FivePrime);
      UtrOfClassLast(entries, strand, cdsStart, cdsEnd, ThreePrime);
    }
  }

  lemma UtrOfClassLast(entries: seq<Exon>, strand: string, cdsStart: nat, cdsEnd: nat, c: UtrClass)
    requires |entries| > 0
    ensures var init := entries[..|entries| - 1];
      (exists i :: UtrOfClassAt(entries, i, strand, cdsStart, cdsEnd, c))
        <==> (exists i :: UtrOfClassAt(init, i, strand, cdsStart, cdsEnd, c))
             || UtrOfClassAt(entries, |entries| - 1, strand, cdsStart, cdsEnd, c)
  {
    var init := entries[..|entries| - 1];
    if exists i :: UtrOfClassAt(entries, i, strand, cdsStart, cdsEnd, c) {
      var i :| UtrOfClassAt(entries, i, strand, cdsStart, cdsEnd, c);
      if i < |init| { assert UtrOfClassAt(init, i, strand, cdsStart, cdsEnd, c); }
    }
    if exists i :: UtrOfClassAt(init, i, strand, cdsStart, cdsEnd, c) {
      var i :| UtrOfClassAt(init, i, strand, cdsStart, cdsEnd, c);
      assert UtrOfClassAt(entries, i, strand, cdsStart, cdsEnd, c);
    }
  }

  /** The finalisation closure up to the UTR loop. */
  function FinalizedCore(t: Transcript): Transcript
  {
    var sorted := SortByStart(ExonFeatures(t.exons), false);
    var t1 := t.(
      spliceJunctionPositions := if |sorted| > 1 then JunctionPositions(sorted) else t.spliceJunctionPositions,
      transcriptLength := Some(SumLengths(sorted)));
    var t2 := CheckTranscriptLength(t1);
    t2.(cdsStarts := SortNats(t2.cdsStarts), cdsEnds := SortNats(t2.cdsEnds))
  }

  /** The whole finalisation closure of `read_annotation_file` on one transcript. */
  function FinalizeTranscript(t: Transcript): Transcript
  {
    var c := FinalizedCore(t);
    if |c.cdsStarts| > 0 && |c.cdsEnds| > 0 then
      var (a, b) := UtrPass(c.exons, c.strand.GetOr("."), c.cdsStarts[0], c.cdsEnds[|c.cdsEnds| - 1], c.utr5Len, c.utr3Len);
      c.(utr5Len := a, utr3Len := b)
    else c
  }

  /** The `for feature in &transcript.exons` loop of the finalisation. */
  method ClassifyUtrs(entries: seq<Exon>, transcriptStrand: Option<string>, cdsStart: nat, cdsEnd: nat,
                      utr5: Option<nat>, utr3: Option<nat>) returns (utr5Len: Option<nat>, utr3Len: Option<nat>)
    ensures (utr5Len, utr3Len) == UtrPass(entries, transcriptStrand.GetOr("."), cdsStart, cdsEnd, utr5, utr3)
  {
    utr5Len, utr3Len := utr5, utr3;
    var i := 0;
    while i < |entries|
      invariant 0 <= i <= |entries|
      invariant (utr5Len, utr3Len) == UtrPass(entries[..i], transcriptStrand.GetOr("."), cdsStart, cdsEnd, utr5, utr3)
    {
      var feature := entries[i];
      assert entries[..i + 1][..i] == entries[..i];
      if feature.featureType == "UTR" {
        var strand := transcriptStrand.GetOr(".");
        if strand == "+" || strand == "." {
          if feature.end < cdsStart {
            utr5Len := Some(utr5Len.GetOr(0) + feature.length);
          } else if feature.start > cdsEnd {
            utr3Len := Some(utr3Len.GetOr(0) + feature.length);
          }
        } else if strand == "-" {
          if feature.start > cdsEnd {
            utr5Len := Some(utr5Len.GetOr(0) + feature.length);
          } else if feature.end < cdsStart {
            utr3Len := Some(utr3Len.GetOr(0) + feature.length);
          }
        }
      }
      i := i + 1;
    }
    assert entries[..i] == entries;
  }

  /** The finalisation closure on one transcript. */
  method Finalize(t: Transcript) returns (f: Transcript)
    ensures f == FinalizeTranscript(t)
  {
    var exonFeatures := ExonFeatures(t.exons);
    exonFeatures := SortByStart(exonFeatures, false);
    f := t;
    if |exonFeatures| > 1 {
      f := f.(spliceJunctionPositions := JunctionPositions(exonFeatures));
    }
    f := f.(transcriptLength := Some(SumLengths(exonFeatures)));
    f := CheckTranscriptLength(f);
    f := f.(cdsStarts := SortNats(f.cdsStarts), cdsEnds := SortNats(f.cdsEnds));
    if |f.cdsStarts| > 0 && |f.cdsEnds| > 0 {
      var cdsStart, cdsEnd := f.cdsStarts[0], f.cdsEnds[|f.cdsEnds| - 1];
      var utr5Len, utr3Len := ClassifyUtrs(f.exons, f.strand, cdsStart, cdsEnd, f.utr5Len, f.utr3Len);
      f := f.(utr5Len := utr5Len, utr3Len := utr3Len);
    }
  }

  /** What the finalisation does to a transcript: the stored entries keep their insertion
      order; the transcript length is the sum over the exon features; junctions are end + 1 of
      each exon feature but the last in start order, and are kept as they were with at most one
      exon feature; the CDS coordinates are sorted; the flag is the length check's, made
      before any UTR length is added; nothing else changes except the UTR accumulators. */
  lemma FinalizeShape(t: Transcript)
    ensures var f, ef := FinalizeTranscript(t), ExonFeatures(t.exons);
      var sorted := SortByStart(ef, false);
      && f.exons == t.exons
      && f.transcriptLength == Some(SumLengths(ef))
      && (|ef| > 1 ==>
            |f.spliceJunctionPositions| == |ef| - 1
            && forall i :: 0 <= i < |ef| - 1 ==> f.spliceJunctionPositions[i] == sorted[i].end + 1)
      && (|ef| <= 1 ==> f.spliceJunctionPositions == t.spliceJunctionPositions)
      && OrderedByStart(sorted, false) && multiset(sorted) == multiset(ef)
      && Ascending(f.cdsStarts) && multiset(f.cdsStarts) == multiset(t.cdsStarts)
      && Ascending(f.cdsEnds) && multiset(f.cdsEnds) == multiset(t.cdsEnds)
      && (f.hasMissingFeatures <==> t.hasMissingFeatures || (HasAnyLength(t) && SumLengths(t.exons) != ExpectedLength(t)))
      && f.cdsLen == t.cdsLen
      && Metadata(f).(spliceJunctionPositions := [], transcriptLength := None, hasMissingFeatures := false)
         == Metadata(t).(spliceJunctionPositions := [], transcriptLength := None, hasMissingFeatures := false)
  {
    var ef := ExonFeatures(t.exons);
    var sorted := SortByStart(ef, false);
    var t1 := t.(
      spliceJunctionPositions := if |sorted| > 1 then JunctionPositions(sorted) else t.spliceJunctionPositions,
      transcriptLength := Some(SumLengths(sorted)));
    var t2 := CheckTranscriptLength(t1);
    assert t2 == t1.(hasMissingFeatures := t2.hasMissingFeatures);
    assert HasAnyLength(t1) == HasAnyLength(t) && ExpectedLength(t1) == ExpectedLength(t);
    var c := t2.(cdsStarts := SortNats(t2.cdsStarts), cdsEnds := SortNats(t2.cdsEnds));
    assert c == FinalizedCore(t);
    var f := FinalizeTranscript(t);
    assert f == c.(utr5Len := f.utr5Len, utr3Len := f.utr3Len);
  }

  /** With a CDS, the UTR loop classifies against cds_start = the least CDS start and
      cds_end = the greatest CDS end, which satisfy cds_start <= cds_end for a well-formed
      transcript; without one, the UTR accumulators are left alone. */
  lemma FinalizeUtrLengths(t: Transcript)
    ensures var f := FinalizeTranscript(t);
      (|t.cdsStarts| == 0 || |t.cdsEnds| == 0) ==> f.utr5Len == t.utr5Len && f.utr3Len == t.utr3Len
    ensures |t.cdsStarts| > 0 && |t.cdsEnds| > 0 ==>
      var f, strand, cs, ce := FinalizeTranscript(t), t.strand.GetOr("."), MinOf(t.cdsStarts), MaxOf(t.cdsEnds);
      && f.utr5Len.GetOr(0) == t.utr5Len.GetOr(0) + ClassLength(t.exons, strand, cs, ce, FivePrime)
      && f.utr3Len.GetOr(0) == t.utr3Len.GetOr(0) + ClassLength(t.exons, strand, cs, ce, ThreePrime)
      && (TranscriptWellFormed(t) ==> cs <= ce)
  {
    FinalizedCoreFields(t);
    if |t.cdsStarts| > 0 && |t.cdsEnds| > 0 {
      FinalizeUtrTotals(t);
      if TranscriptWellFormed(t) {
        MinStartBelowMaxEnd(t.cdsStarts, t.cdsEnds);
      }
    }
  }

  /** The UTR totals after the finalisation, with a CDS. */
  lemma FinalizeUtrTotals(t: Transcript)
    requires |t.cdsStarts| > 0 && |t.cdsEnds| > 0
    ensures var f, strand, cs, ce := FinalizeTranscript(t), t.strand.GetOr("."), MinOf(t.cdsStarts), MaxOf(t.cdsEnds);
      && f.utr5Len.GetOr(0) == t.utr5Len.GetOr(0) + ClassLength(t.exons, strand, cs, ce, FivePrime)
      && f.utr3Len.GetOr(0) == t.utr3Len.GetOr(0) + ClassLength(t.exons, strand, cs, ce, ThreePrime)
  {
    var c := FinalizedCore(t);
    FinalizedCoreFields(t);
    var cs, ce := c.cdsStarts[0], c.cdsEnds[|c.cdsEnds| - 1];
    var (a, b) := UtrPass(c.exons, c.strand.GetOr("."), cs, ce, c.utr5Len, c.utr3Len);
    assert FinalizeTranscript(t) == c.(utr5Len := a, utr3Len := b);
    UtrTotalsAfterSort(t, c);
  }

  /** The UTR pass on the transcript's fields with sorted CDS coordinates. */
  lemma UtrTotalsAfterSort(t: Transcript, c: Transcript)
    requires |t.cdsStarts| > 0 && |t.cdsEnds| > 0
    requires c.exons == t.exons && c.strand == t.strand && c.utr5Len == t.utr5Len && c.utr3Len == t.utr3Len
    requires c.cdsStarts == SortNats(t.cdsStarts) && c.cdsEnds == SortNats(t.cdsEnds)
    ensures var strand, cs, ce := t.strand.GetOr("."), MinOf(t.cdsStarts), MaxOf(t.cdsEnds);
      var (a, b) := UtrPass(c.exons, c.strand.GetOr("."), c.cdsStarts[0], c.cdsEnds[|c.cdsEnds| - 1], c.utr5Len, c.utr3Len);
      && a.GetOr(0) == t.utr5Len.GetOr(0) + ClassLength(t.exons, strand, cs, ce, FivePrime)
      && b.GetOr(0) == t.utr3Len.GetOr(0) + ClassLength(t.exons, strand, cs, ce, ThreePrime)
  {
    var strand, cs, ce := t.strand.GetOr("."), MinOf(t.cdsStarts), MaxOf(t.cdsEnds);
    EndsOfSorted(t.cdsStarts, t.cdsEnds, c.cdsStarts, c.cdsEnds);
    UtrPassTotals(t.exons, strand, cs, ce, t.utr5Len, t.utr3Len);
  }

  /** The first of the sorted starts and the last of the sorted ends. */
  lemma EndsOfSorted(starts: seq<nat>, ends: seq<nat>, sortedStarts: seq<nat>, sortedEnds: seq<nat>)
    requires |starts| > 0 && |ends| > 0 && sortedStarts == SortNats(starts) && sortedEnds == SortNats(ends)
    ensures |sortedStarts| > 0 && |sortedEnds| > 0
    ensures sortedStarts[0] == MinOf(starts) && sortedEnds[|sortedEnds| - 1] == MaxOf(ends)
  {
    SortedEndsAreMinMax(starts);
    SortedEndsAreMinMax(ends);
  }

  /** The fields the UTR pass reads are those of the transcript, with the CDS coordinates
      sorted. */
  lemma FinalizedCoreFields(t: Transcript)
    ensures var c := FinalizedCore(t);
      && c.exons == t.exons && c.strand == t.strand
      && c.utr5Len == t.utr5Len && c.utr3Len == t.utr3Len
      && c.cdsStarts == SortNats(t.cdsStarts) && c.cdsEnds == SortNats(t.cdsEnds)
  {
  }

  /** With the CDS starts pointwise at most the CDS ends, the least start is at most the
      greatest end. */
  lemma MinStartBelowMaxEnd(starts: seq<nat>, ends: seq<nat>)
    requires 0 < |starts| == |ends| && forall i :: 0 <= i < |starts| ==> starts[i] <= ends[i]
    ensures MinOf(starts) <= MaxOf(ends)
  {
    var i :| 0 <= i < |starts| && starts[i] == MinOf(starts);
    assert starts[i] <= ends[i] <= MaxOf(ends);
  }

  /** The finalisation of every transcript (`par_iter_mut().for_each`, sequentially). */
  method FinalizeAll(transcripts: map<string, Transcript>) returns (finalized: map<string, Transcript>)
    ensures finalized == map k | k in transcripts :: FinalizeTranscript(transcripts[k])
  {
    finalized := transcripts;
    var todo := transcripts.Keys;
    assert finalized == ApplyOutside(transcripts, todo, FinalizeTranscript);
    while todo != {}
      invariant todo <= transcripts.Keys
      invariant finalized == ApplyOutside(transcripts, todo, FinalizeTranscript)
      decreases todo
    {
      var id :| id in todo;
      var f := Finalize(finalized[id]);
      ApplyOutsideStep(transcripts, todo, FinalizeTranscript, id);
      finalized := finalized[id := f];
      todo := todo - {id};
    }
  }

  // ---------------------------------------------------------------------------
  // the whole of `read_annotation_file`

  /** The lines of the file, as the chunks cut them. */
  function Flatten(chunks: seq<seq<Record>>): seq<Record>
    decreases |chunks|
  {
    if |chunks| == 0 then [] else Flatten(chunks[..|chunks| - 1]) + chunks[|chunks| - 1]
  }

  function ChunkResults(chunks: seq<seq<Record>>, isGtf: bool, hasVersion: bool): (rs: seq<ChunkResult>)
    ensures |rs| == |chunks|
    ensures forall i :: 0 <= i < |chunks| ==> rs[i] == ChunkSpec(chunks[i], isGtf, hasVersion)
  {
    seq(|chunks|, i requires 0 <= i < |chunks| => ChunkSpec(chunks[i], isGtf, hasVersion))
  }

  /** The transcripts, ignored counts and skipped PAR genes `read_annotation_file` ends with. */
  function ReadAnnotation(chunks: seq<seq<Record>>, isGtf: bool, hasVersion: bool): ChunkResult
  {
    var merged := MergeAll(ChunkResults(chunks, isGtf, hasVersion));
    merged.(transcripts := map k | k in merged.transcripts :: FinalizeTranscript(merged.transcripts[k]))
  }

  /** `read_annotation_file` on the records of the file, cut into chunks; parse errors, the
      messages and the parallel scheduling are not part of the model. */
  method ReadAnnotationFile(chunks: seq<seq<Record>>, isGtf: bool, hasVersion: bool) returns (result: ChunkResult)
    ensures result == ReadAnnotation(chunks, isGtf, hasVersion)
  {
    var results: seq<ChunkResult> := [];
    for i := 0 to |chunks|
      invariant results == ChunkResults(chunks[..i], isGtf, hasVersion)
    {
      var r := ProcessChunk(chunks[i], isGtf, hasVersion);
      results := results + [r];
    }
    assert chunks[..|chunks|] == chunks;
    var merged := MergeChunkResults(results);
    var transcripts := FinalizeAll(merged.transcripts);
    result := merged.(transcripts := transcripts);
  }

  lemma {:induction false} IgnoredOccurrencesAppend(a: seq<Record>, b: seq<Record>, isGtf: bool, t: string)
    ensures IgnoredOccurrences(a + b, isGtf, t) == IgnoredOccurrences(a, isGtf, t) + IgnoredOccurrences(b, isGtf, t)
    decreases |b|
  {
    if |b| > 0 {
      assert (a + b)[..|a + b| - 1] == a + b[..|b| - 1];
      IgnoredOccurrencesAppend(a, b[..|b| - 1], isGtf, t);
    } else {
      assert a + b == a;
    }
  }

  /** The ignored counts do not depend on how the file is cut into chunks: each type counts
      the records of the whole file that reach the `other` arm. */
  lemma {:induction false} IgnoredCountsIgnoreChunking(chunks: seq<seq<Record>>, isGtf: bool, hasVersion: bool, t: string)
    ensures CountOf(ReadAnnotation(chunks, isGtf, hasVersion).ignoredFeatures, t)
      == IgnoredOccurrences(Flatten(chunks), isGtf, t)
    decreases |chunks|
  {
    var rs := ChunkResults(chunks, isGtf, hasVersion);
    MergeAllCounters(rs, t, "");
    CountAcrossChunks(chunks, isGtf, hasVersion, t);
  }

  lemma {:induction false} CountAcrossChunks(chunks: seq<seq<Record>>, isGtf: bool, hasVersion: bool, t: string)
    ensures CountAcross(ChunkResults(chunks, isGtf, hasVersion), t) == IgnoredOccurrences(Flatten(chunks), isGtf, t)
    decreases |chunks|
  {
    if |chunks| > 0 {
      var init := chunks[..|chunks| - 1];
      CountAcrossChunks(init, isGtf, hasVersion, t);
      assert ChunkResults(chunks, isGtf, hasVersion)[..|chunks| - 1] == ChunkResults(init, isGtf, hasVersion);
      ChunkIgnoredCounts(chunks[|chunks| - 1], isGtf, hasVersion, t);
      IgnoredOccurrencesAppend(Flatten(init), chunks[|chunks| - 1], isGtf, t);
    }
  }

  /** The merge of the chunk results, before finalisation. */
  function MergedChunks(chunks: seq<seq<Record>>, isGtf: bool, hasVersion: bool): ChunkResult
  {
    MergeAll(ChunkResults(chunks, isGtf, hasVersion))
  }

  /** One more chunk is one more merge step. */
  lemma MergedChunksStep(chunks: seq<seq<Record>>, isGtf: bool, hasVersion: bool)
    requires |chunks| > 0
    ensures MergedChunks(chunks, isGtf, hasVersion)
      == MergeResult(MergedChunks(chunks[..|chunks| - 1], isGtf, hasVersion), ChunkSpec(chunks[|chunks| - 1], isGtf, hasVersion))
  {
    assert ChunkResults(chunks, isGtf, hasVersion)[..|chunks| - 1] == ChunkResults(chunks[..|chunks| - 1], isGtf, hasVersion);
  }

  lemma ReadAnnotationMerged(chunks: seq<seq<Record>>, isGtf: bool, hasVersion: bool)
    ensures ReadAnnotation(chunks, isGtf, hasVersion).skippedParGenes == MergedChunks(chunks, isGtf, hasVersion).skippedParGenes
    ensures ReadAnnotation(chunks, isGtf, hasVersion).transcripts.Keys == MergedChunks(chunks, isGtf, hasVersion).transcripts.Keys
  {
  }

  /** The skipped PAR genes do not depend on the chunking either: they are the PAR gene ids
      of all records of the file. */
  lemma {:induction false} SkippedGenesIgnoreChunking(chunks: seq<seq<Record>>, isGtf: bool, hasVersion: bool, g: string)
    ensures g in ReadAnnotation(chunks, isGtf, hasVersion).skippedParGenes <==> NamesParGene(Flatten(chunks), isGtf, g)
    decreases |chunks|
  {
    ReadAnnotationMerged(chunks, isGtf, hasVersion);
    MergedSkippedGenes(chunks, isGtf, hasVersion, g);
  }

  lemma {:induction false} MergedSkippedGenes(chunks: seq<seq<Record>>, isGtf: bool, hasVersion: bool, g: string)
    ensures g in MergedChunks(chunks, isGtf, hasVersion).skippedParGenes <==> NamesParGene(Flatten(chunks), isGtf, g)
    decreases |chunks|
  {
    if |chunks| > 0 {
      var init, last := chunks[..|chunks| - 1], chunks[|chunks| - 1];
      MergedSkippedGenes(init, isGtf, hasVersion, g);
      MergedChunksStep(chunks, isGtf, hasVersion);
      ChunkSkippedParGenes(last, isGtf, hasVersion, g);
      assert Flatten(chunks) == Flatten(init) + last;
      NamesParGeneAppend(Flatten(init), last, isGtf, g);
    }
  }

  /** The transcripts of the annotation are exactly the keys of the `exon` and `UTR` records of
      the whole file, however it is chunked. */
  lemma {:induction false} TranscriptKeysIgnoreChunking(chunks: seq<seq<Record>>, isGtf: bool, hasVersion: bool, k: string)
    ensures k in ReadAnnotation(chunks, isGtf, hasVersion).transcripts
      <==> exists i :: 0 <= i < |Flatten(chunks)| && CreatesKey(Flatten(chunks)[i], isGtf, hasVersion, k)
  {
    ReadAnnotationMerged(chunks, isGtf, hasVersion);
    MergedTranscriptKeys(chunks, isGtf, hasVersion, k);
  }

  lemma {:induction false} MergedTranscriptKeys(chunks: seq<seq<Record>>, isGtf: bool, hasVersion: bool, k: string)
    ensures k in MergedChunks(chunks, isGtf, hasVersion).transcripts
      <==> exists i :: 0 <= i < |Flatten(chunks)| && CreatesKey(Flatten(chunks)[i], isGtf, hasVersion, k)
    decreases |chunks|
  {
    if |chunks| > 0 {
      var init, last := chunks[..|chunks| - 1], chunks[|chunks| - 1];
      MergedTranscriptKeys(init, isGtf, hasVersion, k);
      MergedChunksStep(chunks, isGtf, hasVersion);
      var before, chunk := MergedChunks(init, isGtf, hasVersion), ChunkSpec(last, isGtf, hasVersion);
      assert MergedChunks(chunks, isGtf, hasVersion).transcripts.Keys == before.transcripts.Keys + chunk.transcripts.Keys;
      ChunkKeys(last, isGtf, hasVersion, k);
      assert Flatten(chunks) == Flatten(init) + last;
      ExistsInConcat(Flatten(init), last, r => CreatesKey(r, isGtf, hasVersion, k));
    }
  }

  /** Something holds of an element of `a + b` exactly when it holds of one of `a` or of `b`. */
  lemma ExistsInConcat<T>(a: seq<T>, b: seq<T>, p: T -> bool)
    ensures (exists i :: 0 <= i < |a + b| && p((a + b)[i]))
      <==> (exists i :: 0 <= i < |a| && p(a[i])) || (exists i :: 0 <= i < |b| && p(b[i]))
  {
    if exists i :: 0 <= i < |a + b| && p((a + b)[i]) {
      var i :| 0 <= i < |a + b| && p((a + b)[i]);
      if i < |a| { assert (a + b)[i] == a[i]; } else { assert (a + b)[i] == b[i - |a|]; }
    }
    if exists i :: 0 <= i < |a| && p(a[i]) {
      var i :| 0 <= i < |a| && p(a[i]);
      assert (a + b)[i] == a[i];
    }
    if exists i :: 0 <= i < |b| && p(b[i]) {
      var i :| 0 <= i < |b| && p(b[i]);
      assert (a + b)[|a| + i] == b[i];
    }
  }
}
