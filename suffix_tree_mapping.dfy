// The driver of the suffix-tree mapper: decides whether to load or build the
// index (with the genetic-code dispatch), records the nucleotide length of
// every reference, and, for one worker, searches every query of every batch
// and turns each exact hit into a GFF record that goes through a bounded
// record buffer to the output file.
module SuffixTreeMapping {
  import opened Common
  import opened GenomicLocation

  datatype InputType = Dna | Peptide

  /** The genetic codes the `-gc` option selects, in option order 0..18. */
  datatype GeneticCode =
    | Canonical | VertMitochondrial | YeastMitochondrial | MoldMitochondrial
    | InvertMitochondrial | Ciliate | FlatwormMitochondrial | Euplotid | Prokaryote
    | AltYeast | AscidianMitochondrial | AltFlatwormMitochondrial | Blepherisma
    | ChlorophyceanMitochondrial | TrematodeMitochondrial | ScenedesmusMitochondrial
    | ThraustochytriumMitochondrial | PterobranchiaMitochondrial | Gracilibacteria

  /** The number the option help text gives each code. */
  function CodeNumber(c: GeneticCode): nat {
    match c
    case Canonical => 0
    case VertMitochondrial => 1
    case YeastMitochondrial => 2
    case MoldMitochondrial => 3
    case InvertMitochondrial => 4
    case Ciliate => 5
    case FlatwormMitochondrial => 6
    case Euplotid => 7
    case Prokaryote => 8
    case AltYeast => 9
    case AscidianMitochondrial => 10
    case AltFlatwormMitochondrial => 11
    case Blepherisma => 12
    case ChlorophyceanMitochondrial => 13
    case TrematodeMitochondrial => 14
    case ScenedesmusMitochondrial => 15
    case ThraustochytriumMitochondrial => 16
    case PterobranchiaMitochondrial => 17
    case Gracilibacteria => 18
  }

  /** The `switch(options.geneticCode)`: codes 0..18 select a table, any other
      value is "Unknown Gentetic Code!". */
  function GeneticCodeOf(id: u32): (r: Option<GeneticCode>)
    ensures r.Some? <==> id <= 18
    ensures r.Some? ==> CodeNumber(r.value) == id
  {
    match id
    case 0 => Some(Canonical)
    case 1 => Some(VertMitochondrial)
    case 2 => Some(YeastMitochondrial)
    case 3 => Some(MoldMitochondrial)
    case 4 => Some(InvertMitochondrial)
    case 5 => Some(Ciliate)
    case 6 => Some(FlatwormMitochondrial)
    case 7 => Some(Euplotid)
    case 8 => Some(Prokaryote)
    case 9 => Some(AltYeast)
    case 10 => Some(AscidianMitochondrial)
    case 11 => Some(AltFlatwormMitochondrial)
    case 12 => Some(Blepherisma)
    case 13 => Some(ChlorophyceanMitochondrial)
    case 14 => Some(TrematodeMitochondrial)
    case 15 => Some(ScenedesmusMitochondrial)
    case 16 => Some(ThraustochytriumMitochondrial)
    case 17 => Some(PterobranchiaMitochondrial)
    case 18 => Some(Gracilibacteria)
    case _ => None
  }

  /** Every code is selected by exactly its own number. */
  lemma GeneticCodeNumbering(c: GeneticCode)
    ensures GeneticCodeOf(CodeNumber(c)) == Some(c)
  {
  }

  // ---------------------------------------------------------------------
  // Six-frame layout of the translated collection
  // ---------------------------------------------------------------------

  /** The library's translation of one reference into its six frames under a
      genetic code (frames 0..2 forward, 3..5 on the reverse complement). */
  type SixFrameTranslator = (GeneticCode, seq<char>) -> seq<seq<char>>

  /** What the mapper relies on: six frames per reference. */
  ghost predicate YieldsSixFrames(translate: SixFrameTranslator, code: GeneticCode, dbRaw: seq<seq<char>>)
  {
    forall k :: 0 <= k < |dbRaw| ==> |translate(code, dbRaw[k])| == 6
  }

  /** Frame f holds one residue per whole codon of its reading frame. */
  ghost predicate FramesHaveCodonLengths(translate: SixFrameTranslator, code: GeneticCode, dbRaw: seq<seq<char>>)
  {
    forall k :: 0 <= k < |dbRaw| ==>
      |translate(code, dbRaw[k])| == 6 &&
      forall f :: 0 <= f < 6 ==> |translate(code, dbRaw[k])[f]| == CodonCount(|dbRaw[k]|, f % 3)
  }

  /** `translate(aaSeqs, dbRaw, SIX_FRAME, code)`: the six frames of every
      reference, reference after reference. */
  function TranslateAll(translate: SixFrameTranslator, code: GeneticCode, dbRaw: seq<seq<char>>): seq<seq<char>>
  {
    if |dbRaw| == 0 then []
    else TranslateAll(translate, code, dbRaw[..|dbRaw| - 1]) + translate(code, dbRaw[|dbRaw| - 1])
  }

  /** Frame f of reference k sits at position 6k + f, which is what the
      mapper's `i1 / 6` and `i1 % 6` decode. */
  lemma {:induction false} TranslateAllLayout(translate: SixFrameTranslator, code: GeneticCode, dbRaw: seq<seq<char>>)
    requires YieldsSixFrames(translate, code, dbRaw)
    ensures |TranslateAll(translate, code, dbRaw)| == 6 * |dbRaw|
    ensures forall k, f :: 0 <= k < |dbRaw| && 0 <= f < 6 ==>
              TranslateAll(translate, code, dbRaw)[6 * k + f] == translate(code, dbRaw[k])[f]
  {
    if |dbRaw| > 0 {
      var init := dbRaw[..|dbRaw| - 1];
      assert YieldsSixFrames(translate, code, init) by {
        forall k | 0 <= k < |init| ensures |translate(code, init[k])| == 6 {
          assert init[k] == dbRaw[k];
        }
      }
      TranslateAllLayout(translate, code, init);
      var all := TranslateAll(translate, code, dbRaw);
      forall k, f | 0 <= k < |dbRaw| && 0 <= f < 6
        ensures all[6 * k + f] == translate(code, dbRaw[k])[f]
      {
        if k < |init| {
          assert init[k] == dbRaw[k];
        }
      }
    }
  }

  // ---------------------------------------------------------------------
  // Load or build the index
  // ---------------------------------------------------------------------

  datatype Options = Options(
    sampleFileName: string,
    inputType: InputType,
    bufferSize: u32,
    onlyStoreIndex: bool,
    geneticCode: u32)

  /** What happens before any query is read. */
  datatype Startup =
    | NoReferences                 // the reference file holds no sequence: exit status 1
    | Loaded                       // `open` found a stored index: nothing is built or saved
    | UnknownGeneticCode           // DNA input with a code outside 0..18: exit status 1
    | BuiltAndSaved(collection: seq<seq<char>>, stopAfterSave: bool)

  /** `None` means the mapper goes on to search the queries. */
  function ExitStatus(s: Startup): Option<int> {
    match s
    case NoReferences => Some(1)
    case Loaded => None
    case UnknownGeneticCode => Some(1)
    case BuiltAndSaved(_, stop) => if stop then Some(0) else None
  }

  /** The build-or-load decision. `indexFound` is whether `open` found an index at
      the index path; the collection of a built index is what gets indexed
      and saved. */
  method PrepareIndex(indexFound: bool, options: Options, dbRaw: seq<seq<char>>, translate: SixFrameTranslator)
    returns (outcome: Startup)
    ensures |dbRaw| == 0 ==> outcome == NoReferences
    ensures |dbRaw| > 0 && indexFound ==> outcome == Loaded
    ensures |dbRaw| > 0 && !indexFound && options.inputType == Dna && options.geneticCode > 18 ==>
              outcome == UnknownGeneticCode
    ensures |dbRaw| > 0 && !indexFound && options.inputType == Dna && options.geneticCode <= 18 ==>
              outcome == BuiltAndSaved(TranslateAll(translate, GeneticCodeOf(options.geneticCode).value, dbRaw),
                                       options.onlyStoreIndex)
    ensures |dbRaw| > 0 && !indexFound && options.inputType == Peptide ==>
              outcome == BuiltAndSaved(dbRaw, options.onlyStoreIndex)
  {
    if |dbRaw| == 0 {
      return NoReferences;
    }
    if indexFound {
      return Loaded;
    }
    var aaSeqs: seq<seq<char>> := [];
    if options.inputType == Dna {
      var code := GeneticCodeOf(options.geneticCode);
      if code.None? {
        return UnknownGeneticCode;
      }
      aaSeqs := TranslateAll(translate, code.value, dbRaw);
    } else {
      var i := 0;
      while i < |dbRaw|
        invariant 0 <= i <= |dbRaw|
        invariant aaSeqs == dbRaw[..i]
      {
        aaSeqs := aaSeqs + [dbRaw[i]];
        i := i + 1;
      }
    }
    outcome := BuiltAndSaved(aaSeqs, options.onlyStoreIndex);
  }

  /** A DNA build indexes six entries per reference, frame f of reference k
      at 6k + f. */
  lemma DnaBuildLayout(indexFound: bool, options: Options, dbRaw: seq<seq<char>>, translate: SixFrameTranslator,
                       outcome: Startup)
    requires options.inputType == Dna && options.geneticCode <= 18
    requires outcome == BuiltAndSaved(TranslateAll(translate, GeneticCodeOf(options.geneticCode).value, dbRaw),
                                      options.onlyStoreIndex)
    requires YieldsSixFrames(translate, GeneticCodeOf(options.geneticCode).value, dbRaw)
    ensures |outcome.collection| == 6 * |dbRaw|
    ensures forall k, f :: 0 <= k < |dbRaw| && 0 <= f < 6 ==>
              outcome.collection[6 * k + f] == translate(GeneticCodeOf(options.geneticCode).value, dbRaw[k])[f]
  {
    TranslateAllLayout(translate, GeneticCodeOf(options.geneticCode).value, dbRaw);
  }

  // ---------------------------------------------------------------------
  // Original lengths
  // ---------------------------------------------------------------------

  /** `origLength[i] = length(dbRaw[i])` for every reference, as `unsigned`. */
  method CaptureOriginalLengths(dbRaw: seq<seq<char>>) returns (origLength: seq<u32>)
    ensures |origLength| == |dbRaw|
    ensures forall k :: 0 <= k < |dbRaw| ==> origLength[k] == Wrap32(|dbRaw[k]|)
  {
    var lengths := new u32[|dbRaw|](_ => 0);
    var i := 0;
    while i < lengths.Length
      invariant 0 <= i <= lengths.Length
      invariant forall k :: 0 <= k < i ==> lengths[k] == Wrap32(|dbRaw[k]|)
    {
      lengths[i] := Wrap32(|dbRaw[i]|);
      i := i + 1;
    }
    origLength := lengths[..];
  }

  // ---------------------------------------------------------------------
  // Hits and records
  // ---------------------------------------------------------------------

  /** `hit` is an exact occurrence of `pattern` in the indexed collection. */
  ghost predicate IsOccurrence(text: seq<seq<char>>, pattern: seq<char>, hit: Occurrence)
  {
    hit.seqId < |text| &&
    hit.offset + |pattern| <= |text[hit.seqId]| &&
    text[hit.seqId][hit.offset .. hit.offset + |pattern|] == pattern
  }

  datatype Query = Query(id: string, residues: seq<char>)

  datatype GffRecord = GffRecord(
    ref: string,
    source: string,
    recordType: string,
    beginPos: u32,
    endPos: u32,
    strand: char,
    tagNames: seq<string>,
    tagValues: seq<string>)

  /** Strand as line 385 computes it: from the hit OFFSET, '+' for offsets
      3..5 modulo 6. */
  function StrandAsWritten(hit: Occurrence): (s: char)
    ensures s == '+' <==> hit.offset % 6 >= 3
    ensures s == '-' <==> hit.offset % 6 < 3
  {
    if hit.offset % 6 > 2 then '+' else '-'
  }

  /** Strand of the frame the hit lies in: frames 0..2 are forward. */
  function FrameStrand(hit: Occurrence): (s: char)
    ensures s == '+' <==> hit.seqId % 6 < 3
    ensures s == '-' <==> hit.seqId % 6 >= 3
  {
    if hit.seqId % 6 < 3 then '+' else '-'
  }

  /** A forward-frame hit at offset 0 gets '-' from the code as written. */
  lemma StrandAsWrittenMislabels()
    ensures FrameStrand(Occurrence(0, 0)) == '+' && StrandAsWritten(Occurrence(0, 0)) == '-'
    ensures FrameStrand(Occurrence(3, 3)) == '-' && StrandAsWritten(Occurrence(3, 3)) == '+'
  {
  }

  /** The record of a DNA-mode hit as written: reference and original length
      of reference i1 / 6, interval from `genomicLocationSet`, strand from
      the hit offset. */
  function DnaRecord(dbIds: seq<string>, origLength: seq<u32>, sampleFileName: string, query: Query,
                     hit: Occurrence): (r: GffRecord)
    requires hit.seqId / 6 < |dbIds| && hit.seqId / 6 < |origLength|
    ensures r.ref == dbIds[hit.seqId / 6] && r.source == sampleFileName && r.recordType == "peptide"
    ensures r.tagNames == ["ID", "Name"] && r.tagValues == [query.id, sampleFileName]
    ensures r.strand == '+' <==> hit.offset % 6 >= 3
  {
    var location := GenomicLocationSet(hit, Wrap32(|query.residues|), origLength[hit.seqId / 6]);
    GffRecord(dbIds[hit.seqId / 6], sampleFileName, "peptide", location.begin, location.end,
              StrandAsWritten(hit), ["ID", "Name"], [query.id, sampleFileName])
  }

  /** The record of a DNA-mode hit as intended: the strand of its frame. */
  function DnaRecordIntended(dbIds: seq<string>, origLength: seq<u32>, sampleFileName: string, query: Query,
                             hit: Occurrence): (r: GffRecord)
    requires hit.seqId / 6 < |dbIds| && hit.seqId / 6 < |origLength|
    ensures r.strand == '+' <==> hit.seqId % 6 < 3
  {
    DnaRecord(dbIds, origLength, sampleFileName, query, hit).(strand := FrameStrand(hit))
  }

  /** The two records differ in the strand alone, and agree on it exactly
      when the offset test happens to match the frame. */
  lemma DnaRecordStrandOnly(dbIds: seq<string>, origLength: seq<u32>, sampleFileName: string, query: Query,
                            hit: Occurrence)
    requires hit.seqId / 6 < |dbIds| && hit.seqId / 6 < |origLength|
    ensures var w := DnaRecord(dbIds, origLength, sampleFileName, query, hit);
            var c := DnaRecordIntended(dbIds, origLength, sampleFileName, query, hit);
            w.ref == c.ref && w.beginPos == c.beginPos && w.endPos == c.endPos &&
            w.tagValues == c.tagValues &&
            (w == c <==> (hit.offset % 6 >= 3 <==> hit.seqId % 6 < 3))
  {
  }

  /** The record of a peptide-mode hit: no frame decoding. */
  function PeptideRecord(dbIds: seq<string>, sampleFileName: string, query: Query, hit: Occurrence): (r: GffRecord)
    requires hit.seqId < |dbIds|
    ensures r.ref == dbIds[hit.seqId] && r.source == sampleFileName && r.recordType == "peptide"
    ensures r.tagNames == ["ID", "Name"] && r.tagValues == [query.id, sampleFileName]
    ensures r.strand == '+'
    ensures hit.offset + |query.residues| < TWO_POW_32 ==>
              r.beginPos == hit.offset && r.endPos == hit.offset + |query.residues|
  {
    GffRecord(dbIds[hit.seqId], sampleFileName, "peptide", Wrap32(hit.offset),
              Wrap32(Wrap32(hit.offset) + |query.residues|), '+', ["ID", "Name"], [query.id, sampleFileName])
  }

  /** End to end for DNA mode: a true occurrence of a non-empty query in the
      translated collection yields a record whose interval lies inside its
      reference and spans three nucleotides per residue. */
  lemma DnaRecordInsideReference(translate: SixFrameTranslator, code: GeneticCode, dbRaw: seq<seq<char>>,
                                 dbIds: seq<string>, origLength: seq<u32>, sampleFileName: string,
                                 query: Query, hit: Occurrence)
    requires FramesHaveCodonLengths(translate, code, dbRaw)
    requires |dbIds| == |dbRaw| && |origLength| == |dbRaw|
    requires forall k :: 0 <= k < |dbRaw| ==> |dbRaw[k]| < TWO_POW_32 && origLength[k] == |dbRaw[k]|
    requires 0 < |query.residues|
    requires IsOccurrence(TranslateAll(translate, code, dbRaw), query.residues, hit)
    ensures hit.seqId / 6 < |dbIds|
    ensures var r := DnaRecord(dbIds, origLength, sampleFileName, query, hit);
            r.ref == dbIds[hit.seqId / 6] &&
            r.beginPos <= r.endPos <= |dbRaw[hit.seqId / 6]| &&
            r.endPos - r.beginPos == 3 * |query.residues|
  {
    assert YieldsSixFrames(translate, code, dbRaw);
    TranslateAllLayout(translate, code, dbRaw);
    var k, f := hit.seqId / 6, hit.seqId % 6;
    assert hit.seqId == 6 * k + f;
    var frame := translate(code, dbRaw[k])[f];
    assert |frame| == CodonCount(|dbRaw[k]|, f % 3);
    assert |query.residues| < TWO_POW_32;
    HitInsideReference(hit, |query.residues|, |dbRaw[k]|);
  }

  // ---------------------------------------------------------------------
  // The finder cursor
  // ---------------------------------------------------------------------

  /** The library's search over the index: all exact occurrences of a
      pattern, in the order the index reports them. */
  type Search = seq<char> -> seq<Occurrence>

  /** The search reports only true occurrences. */
  ghost predicate SoundSearch(search: Search, text: seq<seq<char>>)
  {
    forall p, j :: 0 <= j < |search(p)| ==> IsOccurrence(text, p, HitAt(search, p, j))
  }

  /** The j-th occurrence the search reports for `p`; naming it keeps the
      soundness fact from being applied to every index of every result. */
  ghost function HitAt(search: Search, p: seq<char>, j: nat): Occurrence
    requires j < |search(p)|
  {
    search(p)[j]
  }

  /** A search cursor bound to one index: `Clear` resets it, each `Find`
      reports the next occurrence of the pattern until none is left. */
  class Finder {
    const search: Search
    ghost const text: seq<seq<char>>
    var started: bool
    var pattern: seq<char>
    var pending: seq<Occurrence>
    var position: Occurrence
    ghost var reported: seq<Occurrence>

    ghost predicate Valid()
      reads this
    {
      SoundSearch(search, text) &&
      (started ==> reported + pending == search(pattern)) &&
      (!started ==> reported == [] && pending == []) &&
      (reported != [] ==> position == reported[|reported| - 1])
    }

    constructor (search: Search, ghost text: seq<seq<char>>)
      requires SoundSearch(search, text)
      ensures Valid() && this.search == search && this.text == text
      ensures !started && reported == []
    {
      this.search := search;
      this.text := text;
      started, pattern, pending, position := false, [], [], Occurrence(0, 0);
      reported := [];
    }

    /** `clear(finder)`: forget the previous pattern. */
    method Clear()
      requires Valid()
      modifies this
      ensures Valid() && !started && reported == []
    {
      started, pending := false, [];
      reported := [];
    }

    /** `find(finder, p)`: true and the next occurrence in `position`, or
        false once every occurrence of `p` has been reported. */
    method Find(p: seq<char>) returns (found: bool)
      requires Valid()
      requires started ==> p == pattern
      modifies this
      ensures Valid() && started && pattern == p
      ensures found <==> |old(reported)| < |search(p)|
      ensures found ==> reported == old(reported) + [position] && IsOccurrence(text, p, position)
      ensures !found ==> reported == old(reported)
      ensures reported == search(p)[..|reported|]
    {
      if !started {
        started, pattern, pending := true, p, search(p);
      }
      assert reported + pending == search(p);
      if pending == [] {
        found := false;
      } else {
        position, pending := pending[0], pending[1..];
        reported := reported + [position];
        found := true;
        assert IsOccurrence(text, p, HitAt(search, p, |reported| - 1));
      }
    }
  }

  // ---------------------------------------------------------------------
  // One worker: search, buffer, flush
  // ---------------------------------------------------------------------

  /** The reference entry a hit needs exists: reference i1 / 6 (and its
      original length) in DNA mode, reference i1 in peptide mode. */
  predicate HasReference(inputType: InputType, dbIds: seq<string>, origLength: seq<u32>, hit: Occurrence)
  {
    if inputType == Dna then hit.seqId / 6 < |dbIds| && hit.seqId / 6 < |origLength|
    else hit.seqId < |dbIds|
  }

  /** The record the mapper appends for one hit of `q`. */
  function HitRecord(inputType: InputType, dbIds: seq<string>, origLength: seq<u32>, sampleFileName: string,
                     q: Query, hit: Occurrence): (r: GffRecord)
    requires HasReference(inputType, dbIds, origLength, hit)
    ensures r.ref == if inputType == Dna then dbIds[hit.seqId / 6] else dbIds[hit.seqId]
    ensures r.source == sampleFileName && r.tagValues == [q.id, sampleFileName]
  {
    if inputType == Dna then DnaRecord(dbIds, origLength, sampleFileName, q, hit)
    else PeptideRecord(dbIds, sampleFileName, q, hit)
  }

  /** Records of `q`, one per hit, in the order the hits are reported. */
  function QueryRecords(inputType: InputType, dbIds: seq<string>, origLength: seq<u32>, sampleFileName: string,
                        q: Query, hits: seq<Occurrence>): (r: seq<GffRecord>)
    requires forall j :: 0 <= j < |hits| ==> HasReference(inputType, dbIds, origLength, hits[j])
    ensures |r| == |hits|
  {
    if |hits| == 0 then []
    else QueryRecords(inputType, dbIds, origLength, sampleFileName, q, hits[..|hits| - 1]) +
         [HitRecord(inputType, dbIds, origLength, sampleFileName, q, hits[|hits| - 1])]
  }

  /** The j-th record is the record of the j-th hit. */
  lemma {:induction false} QueryRecordsContent(inputType: InputType, dbIds: seq<string>, origLength: seq<u32>,
                                               sampleFileName: string, q: Query, hits: seq<Occurrence>, j: nat)
    requires forall k :: 0 <= k < |hits| ==> HasReference(inputType, dbIds, origLength, hits[k])
    requires j < |hits|
    ensures QueryRecords(inputType, dbIds, origLength, sampleFileName, q, hits)[j]
         == HitRecord(inputType, dbIds, origLength, sampleFileName, q, hits[j])
    decreases |hits|
  {
    if j < |hits| - 1 {
      QueryRecordsContent(inputType, dbIds, origLength, sampleFileName, q, hits[..|hits| - 1], j);
    }
  }

  /** Extending the hits by one extends the records by that hit's record. */
  lemma QueryRecordsSnoc(inputType: InputType, dbIds: seq<string>, origLength: seq<u32>, sampleFileName: string,
                         q: Query, hits: seq<Occurrence>, n: nat)
    requires n < |hits|
    requires forall j :: 0 <= j < |hits| ==> HasReference(inputType, dbIds, origLength, hits[j])
    ensures QueryRecords(inputType, dbIds, origLength, sampleFileName, q, hits[..n + 1])
         == QueryRecords(inputType, dbIds, origLength, sampleFileName, q, hits[..n])
            + [HitRecord(inputType, dbIds, origLength, sampleFileName, q, hits[n])]
  {
    assert hits[..n + 1][..n] == hits[..n];
  }

  class Worker {
    const options: Options
    const dbIds: seq<string>
    const origLength: seq<u32>
    const finder: Finder
    /** The private record buffer (`records`). */
    var records: seq<GffRecord>
    /** Everything written to the output file (`fout`), in order. */
    var output: seq<GffRecord>

    /** The index the finder searches belongs to these references. */
    ghost predicate Consistent()
    {
      SoundSearch(finder.search, finder.text) &&
      (options.inputType == Dna ==> |finder.text| <= 6 * |dbIds| && |origLength| == |dbIds|) &&
      (options.inputType == Peptide ==> |finder.text| <= |dbIds|)
    }

    ghost predicate Valid()
      reads this, finder
    {
      finder.Valid() && Consistent()
    }

    constructor (options: Options, dbIds: seq<string>, origLength: seq<u32>, finder: Finder)
      requires finder.Valid()
      requires options.inputType == Dna ==> |finder.text| <= 6 * |dbIds| && |origLength| == |dbIds|
      requires options.inputType == Peptide ==> |finder.text| <= |dbIds|
      ensures Valid() && records == [] && output == []
      ensures this.options == options && this.dbIds == dbIds && this.origLength == origLength
      ensures this.finder == finder
    {
      this.options, this.dbIds, this.origLength, this.finder := options, dbIds, origLength, finder;
      records, output := [], [];
    }

    /** Every hit the search reports for `p` has a reference entry. */
    lemma HitsHaveReferences(p: seq<char>)
      requires Consistent()
      ensures forall j :: 0 <= j < |finder.search(p)| ==>
                HasReference(options.inputType, dbIds, origLength, finder.search(p)[j])
    {
      forall j | 0 <= j < |finder.search(p)|
        ensures HasReference(options.inputType, dbIds, origLength, finder.search(p)[j])
      {
        assert IsOccurrence(finder.text, p, HitAt(finder.search, p, j));
      }
    }

    /** The records of one query: one per occurrence, in search order. */
    ghost function Records(q: Query): seq<GffRecord>
      requires Consistent()
    {
      HitsHaveReferences(q.residues);
      QueryRecords(options.inputType, dbIds, origLength, options.sampleFileName, q, finder.search(q.residues))
    }

    /** All records of a batch, query after query. */
    ghost function BatchRecords(batch: seq<Query>): seq<GffRecord>
      requires Consistent()
    {
      if |batch| == 0 then [] else BatchRecords(batch[..|batch| - 1]) + Records(batch[|batch| - 1])
    }

    /** Batches until the first empty one (`length(sampleIds) == 0`). */
    ghost function RunRecords(batches: seq<seq<Query>>): seq<GffRecord>
      requires Consistent()
    {
      if |batches| == 0 || |batches[0]| == 0 then []
      else BatchRecords(batches[0]) + RunRecords(batches[1..])
    }

    /** Write the whole buffer to the output, record by record. */
    method WriteBuffer()
      modifies this
      ensures output == old(output) + old(records) && records == old(records)
    {
      var j := 0;
      while j < |records|
        invariant 0 <= j <= |records|
        invariant output == old(output) + records[..j]
        invariant records == old(records)
      {
        output := output + [records[j]];
        j := j + 1;
      }
    }

    /** The record built for the j-th reported occurrence of `q` is the j-th
        of its records. */
    method HitRecordOf(q: Query, hit: Occurrence, ghost j: nat) returns (record: GffRecord)
      requires Consistent()
      requires j < |finder.search(q.residues)| && hit == finder.search(q.residues)[j]
      ensures record == Records(q)[j]
    {
      HitsHaveReferences(q.residues);
      record := HitRecord(options.inputType, dbIds, origLength, options.sampleFileName, q, hit);
      QueryRecordsContent(options.inputType, dbIds, origLength, options.sampleFileName, q,
                          finder.search(q.residues), j);
    }

    /** The `while (find(finder, ...))` loop: one record per occurrence of
        the query, appended to the buffer in the order the finder reports them. */
    method CollectHits(q: Query)
      requires Valid()
      modifies this, finder
      ensures Valid()
      ensures records == old(records) + Records(q) && output == old(output)
    {
      ghost var hits := finder.search(q.residues);
      ghost var rs := Records(q);
      ghost var start := records;
      finder.Clear();
      var found := finder.Find(q.residues);
      ghost var n := 0;
      while found
        invariant finder.Valid() && finder.started && finder.pattern == q.residues
        invariant n <= |hits| && |finder.reported| == if found then n + 1 else n
        invariant found ==> finder.position == hits[n]
        invariant !found ==> n == |hits|
        invariant records == start + rs[..n] && output == old(output)
        decreases |hits| - n
      {
        var record := HitRecordOf(q, finder.position, n);
        assert rs[..n + 1] == rs[..n] + [record];
        ConcatRegroup(start, rs[..n], [record]);
        records := records + [record];
        n := n + 1;
        found := finder.Find(q.residues);
      }
      assert rs[..n] == rs;
    }

    /** Search one query, then flush and clear the buffer if it holds MORE
        than `bufferSize` records. */
    method SearchQuery(q: Query)
      requires Valid()
      modifies this, finder
      ensures Valid()
      ensures output + records == old(output) + old(records) + Records(q)
      ensures |records| <= options.bufferSize
      ensures |old(records)| + |Records(q)| > options.bufferSize ==> records == []
      ensures |old(records)| + |Records(q)| <= options.bufferSize ==>
                output == old(output) && records == old(records) + Records(q)
    {
      CollectHits(q);
      if |records| > options.bufferSize {
        WriteBuffer();
        records := [];
      }
    }

    lemma BatchRecordsSnoc(batch: seq<Query>, i: nat)
      requires Consistent() && i < |batch|
      ensures BatchRecords(batch[..i + 1]) == BatchRecords(batch[..i]) + Records(batch[i])
    {
      assert batch[..i + 1][..i] == batch[..i];
    }

    /** Search a batch in order, then write what is left in the buffer. */
    method SearchBatch(batch: seq<Query>)
      requires Valid() && records == []
      modifies this, finder
      ensures Valid() && records == []
      ensures output == old(output) + BatchRecords(batch)
    {
      var i := 0;
      while i < |batch|
        invariant 0 <= i <= |batch|
        invariant Valid()
        invariant output + records == old(output) + BatchRecords(batch[..i])
      {
        SearchQuery(batch[i]);
        BatchRecordsSnoc(batch, i);
        ConcatRegroup(old(output), BatchRecords(batch[..i]), Records(batch[i]));
        i := i + 1;
      }
      assert batch[..i] == batch;
      WriteBuffer();
      records := [];
    }

    /** Past an empty batch (or the end of the input) no record is produced;
        otherwise the first batch's records come first. */
    lemma RunRecordsStep(batches: seq<seq<Query>>, b: nat)
      requires Consistent() && b <= |batches|
      ensures b == |batches| || |batches[b]| == 0 ==> RunRecords(batches[b..]) == []
      ensures b < |batches| && |batches[b]| != 0 ==>
                RunRecords(batches[b..]) == BatchRecords(batches[b]) + RunRecords(batches[b + 1..])
    {
      if b < |batches| {
        assert batches[b..][0] == batches[b];
        assert batches[b..][1..] == batches[b + 1..];
      }
    }

    /** One turn of the worker loop on a non-empty batch: its records come
        before those of the batches after it. */
    method RunBatch(batches: seq<seq<Query>>, b: nat)
      requires Valid() && records == []
      requires b < |batches| && |batches[b]| != 0
      modifies this, finder
      ensures Valid() && records == []
      ensures output + RunRecords(batches[b + 1..]) == old(output) + RunRecords(batches[b..])
    {
      RunRecordsStep(batches, b);
      ghost var rest := RunRecords(batches[b + 1..]);
      SearchBatch(batches[b]);
      ConcatRegroup(old(output), BatchRecords(batches[b]), rest);
    }

    /** The `for(;;)` loop of one worker: `batches` are what successive
        `readBatch` calls return; the loop stops at the first empty batch, or
        when the input is at its end. */
    method Run(batches: seq<seq<Query>>)
      requires Valid() && records == []
      modifies this, finder
      ensures Valid() && records == []
      ensures output == old(output) + RunRecords(batches)
    {
      var b := 0;
      while b < |batches| && |batches[b]| != 0
        invariant 0 <= b <= |batches|
        invariant Valid() && records == []
        invariant output + RunRecords(batches[b..]) == old(output) + RunRecords(batches)
      {
        RunBatch(batches, b);
        b := b + 1;
      }
      RunRecordsStep(batches, b);
    }
  }
}
