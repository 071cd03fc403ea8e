# Verified model of five SeqAn components

This project models, in Dafny, the parts of a SeqAn source tree that do the actual work in five places:

- **Suffix-tree mapper** (`suffix_tree_mapping.cpp`). It translates each nucleotide reference in six frames and indexes the translations. It then searches every query exactly and writes one GFF record per hit through a bounded record buffer. Hits in a translated frame are mapped back to nucleotide coordinates by `genomicLocationSet`.
- **Stream primitives** (`stream_base.h`). These are `writeValue` on a container and on an iterator into a container, the element-wise and chunked `_write` loops, and the `write`/`read` entry points.
- **BCF2 writer** (`write_bcf.h`). It writes the binary header: the magic bytes, a 32-bit length, and the header text. Contig, INFO, FORMAT and FILTER lines in that text get `IDX=` numbers from two name dictionaries. The model also covers the helpers `_getBcfDictionaryId` and `_countEntriesAlt`, and the eight fixed 32-bit words at the start of a record.
- **Primer-id identifier** (`primer_id_identifyer.cpp`). It splits each reference into overlapping left and right parts and writes the SAM header. It orients each pattern with four positioning segments and aligns it against every part of that side. It then picks the best reference and writes one SAM line.
- **BLASTP benchmark generator** (`create_blastp_benchmark.cpp`). It draws amino acids through cumulative frequency thresholds, writes a database and counts its residues. It builds reads by clamping the length against the reference, substituting residues, counting errors, and editing indels in place.

Where the source changes state step by step, the model does too:

- Classes: `Finder`, `Worker`, `Container`, `Iter`, `BcfContext`.
- Methods with loops over sequences, among them `CollectHits`, `GetBcfDictionaryId`, `CountEntriesAlt`, `AlignAll`, `SelectReference` and `GetAminoAcidDB`.
- Methods that work on an `array`: `CaptureOriginalLengths`, `WriteChunked`, `AppendResidues`, `DeleteWindow`, `ShiftRight` and `Refill`.
- Each method is proved against a specification function. The properties the source promises are proved as lemmas about those functions.

Everything outside the model's reach is a parameter:

- library calls: six-frame translation, the index search, alignment scores, the aligner;
- the input and output chunks of a stream;
- random draws.

C++ `unsigned` arithmetic is modelled modulo 2^32 (`Common.Wrap32`). Raw bytes are the characters 0..255, and 32-bit values are written little-endian.

Files: `common.dfy`, `genomic_location.dfy`, `suffix_tree_mapping.dfy`, `stream_base.dfy`, `write_bcf.dfy`, `primer_id.dfy`, `blastp_benchmark.dfy`.

## Model

| member | source | states |
|---|---|---|
| Common.Wrap32 | sandbox/jsinger/apps/suffix_tree_mapping/suffix_tree_mapping.cpp:187-206 | the conversion to `unsigned` keeps values in range and is congruent modulo 2^32 |
| Common.Wrap32Negative | sandbox/jsinger/apps/suffix_tree_mapping/suffix_tree_mapping.cpp:189-190 | a negative difference above -2^32 becomes that difference plus 2^32 |
| Common.DecimalString | extras/include/seqan/vcf_io/write_bcf.h:155 | `appendNumber` text: at least one digit, only digits, no leading zero |
| Common.DecimalRoundTrip | extras/include/seqan/vcf_io/write_bcf.h:155 | reading back the decimal text of n gives n |
| Common.DecimalStringInjective | extras/include/seqan/vcf_io/write_bcf.h:172 | different numbers get different `IDX=` texts |
| GenomicLocation.GenomicLocationSet | sandbox/jsinger/apps/suffix_tree_mapping/suffix_tree_mapping.cpp:160-210 | in all six frames the interval is 3·queryLength long modulo 2^32; a forward interval begins at nucleotide 3·offset + frame and a reverse one ends at L − (3·offset + frame − 3), both modulo 2^32 |
| GenomicLocation.ForwardInterval | sandbox/jsinger/apps/suffix_tree_mapping/suffix_tree_mapping.cpp:167-184 | a forward case of the switch: begin ≡ the case's first nucleotide and end − begin ≡ 3·queryLength, modulo 2^32 |
| GenomicLocation.ReverseInterval | sandbox/jsinger/apps/suffix_tree_mapping/suffix_tree_mapping.cpp:185-207 | a reverse case of the switch: end ≡ L − genomicStartR and end − begin ≡ 3·queryLength, modulo 2^32 |
| GenomicLocation.CodonCount | sandbox/jsinger/apps/suffix_tree_mapping/suffix_tree_mapping.cpp:163-207 | the number of whole codons in a reading frame: they fit in the sequence and one more does not |
| GenomicLocation.ForwardFrames | sandbox/jsinger/apps/suffix_tree_mapping/suffix_tree_mapping.cpp:165-184 | frames 0..2: begin = 3·offset + frame, end = begin + 3·queryLength |
| GenomicLocation.ReverseFrames | sandbox/jsinger/apps/suffix_tree_mapping/suffix_tree_mapping.cpp:185-207 | frames 3..5 with rawEnd ≤ L: begin = L − rawEnd, end = L − rawBegin, so end − begin = 3·queryLength |
| GenomicLocation.ReverseFramesWrap | sandbox/jsinger/apps/suffix_tree_mapping/suffix_tree_mapping.cpp:187-190 | with rawEnd > L the unsigned begin wraps to L − rawEnd + 2^32, beyond the reference |
| GenomicLocation.MirroredFrames | sandbox/jsinger/apps/suffix_tree_mapping/suffix_tree_mapping.cpp:167-207 | a reverse-frame interval is the mirror image of the forward-frame interval of the same frame and offset |
| GenomicLocation.HitInsideReference | sandbox/jsinger/apps/suffix_tree_mapping/suffix_tree_mapping.cpp:161-210 | a non-empty hit inside its frame maps to a non-empty interval inside [0, L] of length 3·queryLength |
| GenomicLocation.ExampleForwardFrame | sandbox/jsinger/apps/suffix_tree_mapping/suffix_tree_mapping.cpp:167-172 | frame 0, offset 10, 5 residues gives [30, 45) |
| GenomicLocation.ExampleReverseFrame | sandbox/jsinger/apps/suffix_tree_mapping/suffix_tree_mapping.cpp:185-192 | frame 3, offset 10, 5 residues, L = 100 gives [55, 70) |
| SuffixTreeMapping.GeneticCodeOf | sandbox/jsinger/apps/suffix_tree_mapping/suffix_tree_mapping.cpp:270-311 | a table is selected exactly for codes 0..18, and it is the table with that number |
| SuffixTreeMapping.GeneticCodeNumbering | sandbox/jsinger/apps/suffix_tree_mapping/suffix_tree_mapping.cpp:270-308 | every table is selected by its own number |
| SuffixTreeMapping.TranslateAllLayout | sandbox/jsinger/apps/suffix_tree_mapping/suffix_tree_mapping.cpp:380-382 | with six frames per reference, frame f of reference k is entry 6k + f, which `i1 / 6` and `i1 % 6` decode |
| SuffixTreeMapping.PrepareIndex | sandbox/jsinger/apps/suffix_tree_mapping/suffix_tree_mapping.cpp:243-325 | no references exits 1; a found index is loaded, nothing is built and storeOnly is ignored; DNA with a code > 18 exits 1; otherwise the six-frame translation (DNA) or one entry per reference (peptide) is built and saved, and storeOnly stops after the save |
| SuffixTreeMapping.DnaBuildLayout | sandbox/jsinger/apps/suffix_tree_mapping/suffix_tree_mapping.cpp:268-312 | a DNA build indexes 6 entries per reference in frame order |
| SuffixTreeMapping.CaptureOriginalLengths | sandbox/jsinger/apps/suffix_tree_mapping/suffix_tree_mapping.cpp:328-331 | `origLength[k]` is the length of reference k as `unsigned`, for every k |
| SuffixTreeMapping.StrandAsWritten | sandbox/jsinger/apps/suffix_tree_mapping/suffix_tree_mapping.cpp:385 | as written: '+' exactly when the hit offset `i2 % 6` is 3..5, whatever the frame |
| SuffixTreeMapping.FrameStrand | sandbox/jsinger/apps/suffix_tree_mapping/suffix_tree_mapping.cpp:380-385 | strand '+' exactly for forward frames (`i1 % 6 < 3`), '-' exactly for reverse ones |
| SuffixTreeMapping.StrandAsWrittenMislabels | sandbox/jsinger/apps/suffix_tree_mapping/suffix_tree_mapping.cpp:385 | the test on the offset labels a forward hit at offset 0 '-' and a reverse hit at offset 3 '+' |
| SuffixTreeMapping.DnaRecord | sandbox/jsinger/apps/suffix_tree_mapping/suffix_tree_mapping.cpp:366-388 | DNA record as written: ref = `dbIds[i1 / 6]`, source and Name = sample file, ID = query id, type "peptide", strand '+' exactly when the offset `i2 % 6` is 3..5 |
| SuffixTreeMapping.DnaRecordIntended | sandbox/jsinger/apps/suffix_tree_mapping/suffix_tree_mapping.cpp:380-385 | corrected record: strand '+' exactly for a forward frame (`i1 % 6 < 3`) |
| SuffixTreeMapping.DnaRecordStrandOnly | sandbox/jsinger/apps/suffix_tree_mapping/suffix_tree_mapping.cpp:380-385 | the as-written and the corrected record share reference, interval and tags, and are equal exactly when the offset test matches the frame |
| SuffixTreeMapping.PeptideRecord | sandbox/jsinger/apps/suffix_tree_mapping/suffix_tree_mapping.cpp:403-415 | peptide record: ref = `dbIds[i1]`, begin = i2, end = i2 + query length, strand '+' |
| SuffixTreeMapping.DnaRecordInsideReference | sandbox/jsinger/apps/suffix_tree_mapping/suffix_tree_mapping.cpp:378-388 | a true occurrence of a non-empty query gives a record on an existing reference with an interval inside it |
| SuffixTreeMapping.Finder.constructor | sandbox/jsinger/apps/suffix_tree_mapping/suffix_tree_mapping.cpp:261-262 | a finder over an index starts with no pattern and nothing reported |
| SuffixTreeMapping.Finder.Clear | sandbox/jsinger/apps/suffix_tree_mapping/suffix_tree_mapping.cpp:377 | `clear(finder)` forgets the pattern and the reported hits |
| SuffixTreeMapping.Finder.Find | sandbox/jsinger/apps/suffix_tree_mapping/suffix_tree_mapping.cpp:378 | true with the next occurrence exactly while occurrences remain; the reported hits are a prefix of the search result |
| SuffixTreeMapping.HitRecord | sandbox/jsinger/apps/suffix_tree_mapping/suffix_tree_mapping.cpp:378-417 | the reference of the hit (`dbIds[i1 / 6]` for DNA, `dbIds[i1]` for peptides), the sample file as source and the query id and sample file as tags |
| SuffixTreeMapping.QueryRecords | sandbox/jsinger/apps/suffix_tree_mapping/suffix_tree_mapping.cpp:377-417 | one record per hit |
| SuffixTreeMapping.QueryRecordsContent | sandbox/jsinger/apps/suffix_tree_mapping/suffix_tree_mapping.cpp:377-417 | the j-th record is the record of the j-th hit |
| SuffixTreeMapping.QueryRecordsSnoc | sandbox/jsinger/apps/suffix_tree_mapping/suffix_tree_mapping.cpp:378-389 | one more hit appends its record |
| SuffixTreeMapping.Worker.constructor | sandbox/jsinger/apps/suffix_tree_mapping/suffix_tree_mapping.cpp:366 | a worker starts with an empty buffer and no output; it requires the searched index to hold at most six entries per reference (DNA) or one (peptide), which a freshly built index satisfies and a loaded one is assumed to |
| SuffixTreeMapping.Worker.HitsHaveReferences | sandbox/jsinger/apps/suffix_tree_mapping/suffix_tree_mapping.cpp:380-382 | every hit the search reports has a reference entry (and an original length in DNA mode) |
| SuffixTreeMapping.Worker.HitRecordOf | sandbox/jsinger/apps/suffix_tree_mapping/suffix_tree_mapping.cpp:378-417 | the record built for the j-th reported occurrence is the j-th of the query's records |
| SuffixTreeMapping.Worker.WriteBuffer | sandbox/jsinger/apps/suffix_tree_mapping/suffix_tree_mapping.cpp:393-396 | the whole buffer is written in order |
| SuffixTreeMapping.Worker.CollectHits | sandbox/jsinger/apps/suffix_tree_mapping/suffix_tree_mapping.cpp:377-417 | the buffer gains the query's records in hit order; the output is unchanged |
| SuffixTreeMapping.Worker.SearchQuery | sandbox/jsinger/apps/suffix_tree_mapping/suffix_tree_mapping.cpp:375-425 | nothing is lost or reordered (output + buffer grows by the query's records); after the query the buffer holds at most `bufferSize` records; it is flushed and cleared exactly when it would exceed `bufferSize` |
| SuffixTreeMapping.Worker.BatchRecordsSnoc | sandbox/jsinger/apps/suffix_tree_mapping/suffix_tree_mapping.cpp:375-425 | one more query appends its records |
| SuffixTreeMapping.Worker.SearchBatch | sandbox/jsinger/apps/suffix_tree_mapping/suffix_tree_mapping.cpp:366-431 | after a batch and the final flush, the output grew by every record of the batch exactly once, in append order |
| SuffixTreeMapping.Worker.RunRecordsStep | sandbox/jsinger/apps/suffix_tree_mapping/suffix_tree_mapping.cpp:362-363 | an empty batch ends the run; a non-empty one contributes its records, then the rest follows |
| SuffixTreeMapping.Worker.RunBatch | sandbox/jsinger/apps/suffix_tree_mapping/suffix_tree_mapping.cpp:366-431 | a non-empty batch puts its records on the output ahead of the later batches' |
| SuffixTreeMapping.Worker.Run | sandbox/jsinger/apps/suffix_tree_mapping/suffix_tree_mapping.cpp:343-432 | the output is the records of every batch before the first empty one |
| StreamBase.Resize | core/include/seqan/stream/stream_base.h:421 | `resize`: new length, prefix kept, new elements are the default value |
| StreamBase.IterWriteStores | core/include/seqan/stream/stream_base.h:413-424 | corrected iterator write: v at pos, position pos + 1, other elements kept, gap filled |
| StreamBase.IterWriteAgreeWithinEnd | core/include/seqan/stream/stream_base.h:413-424 | pos < len overwrites (length kept); pos == len appends; both versions agree there |
| StreamBase.IterWriteAsWrittenBeyondEnd | core/include/seqan/stream/stream_base.h:420-423 | pos > len as written: length becomes pos, the value lands at pos − 1, position pos + 1 |
| StreamBase.IterWriteOffByOne | core/include/seqan/stream/stream_base.h:420-423 | empty container, position 1: as written ['x'], intended [' ', 'x'] |
| StreamBase.ChunkStep | core/include/seqan/stream/stream_base.h:461-479 | each round copies min(input chunk, output chunk, n); zero exactly when one of them is zero |
| StreamBase.RangeChunk | core/include/seqan/stream/stream_base.h:496-507 | the input chunk of a pointer range is the rest of the range |
| StreamBase.Container.constructor | core/include/seqan/stream/stream_base.h:394-398 | an empty container |
| StreamBase.Container.WriteValue | core/include/seqan/stream/stream_base.h:394-398 | appends exactly v; nothing else changes |
| StreamBase.Container.WriteElementwise | core/include/seqan/stream/stream_base.h:438-443 | n writes in source order; the iterator advances by n |
| StreamBase.Container.WriteChunked | core/include/seqan/stream/stream_base.h:449-489 | same net effect as element-wise writing (the next n source elements appended), with fallback when the output chunk is empty; terminates given non-empty input chunks |
| StreamBase.Container.WritePointer | core/include/seqan/stream/stream_base.h:496-508 | `write(target, ptr, n)` appends the n elements of the range |
| StreamBase.Container.WriteContainer | core/include/seqan/stream/stream_base.h:531-538 | `write(target, cont)` appends exactly `cont` from its beginning |
| StreamBase.Container.Read | core/include/seqan/stream/stream_base.h:544-551 | copies min(n, remaining) elements in order and returns that count |
| StreamBase.Container.ReadContainer | core/include/seqan/stream/stream_base.h:568-573 | `read(target, cont)` appends exactly `length(cont)` elements of `cont` |
| StreamBase.Iter.constructor | core/include/seqan/stream/stream_base.h:409-411 | an iterator into a container at a position |
| StreamBase.Iter.WriteValueAsWritten | core/include/seqan/stream/stream_base.h:404-425 | container and position after the write as written |
| StreamBase.Iter.WriteValue | core/include/seqan/stream/stream_base.h:404-425 | container and position after the corrected write; v is at the old position |
| WriteBcf.IndexOf | extras/include/seqan/vcf_io/write_bcf.h:99-100 | the first occurrence, or none exactly when absent |
| WriteBcf.ReplaceLast | extras/include/seqan/vcf_io/write_bcf.h:153 | `back(s) = c` replaces only the last character |
| WriteBcf.ReplaceLastAppend | extras/include/seqan/vcf_io/write_bcf.h:153 | replacing the last character of an appended line leaves the earlier text alone |
| WriteBcf.AnnotateAppend | extras/include/seqan/vcf_io/write_bcf.h:153-156 | `back = ','` then "IDX=" n '>' on the accumulated text annotates only its last line |
| WriteBcf.DictionaryId | extras/include/seqan/vcf_io/write_bcf.h:94-107 | the id is the text right after the first '=' up to the next ','; empty without '=' |
| WriteBcf.CopyUntilComma | extras/include/seqan/vcf_io/write_bcf.h:103-104 | the inner loop copies exactly the characters up to the next ',' |
| WriteBcf.IdAfter | extras/include/seqan/vcf_io/write_bcf.h:100-105 | from the first '=' on, the copy yields `DictionaryId` |
| WriteBcf.GetBcfDictionaryId | extras/include/seqan/vcf_io/write_bcf.h:94-107 | the scan yields `DictionaryId` |
| WriteBcf.SeparatorCountAppend | extras/include/seqan/vcf_io/write_bcf.h:250-252 | separator counts add over concatenation |
| WriteBcf.EntryCount | extras/include/seqan/vcf_io/write_bcf.h:246-257 | for a non-empty field: separators + 1 unless it ends in a separator; between 1 and the length |
| WriteBcf.EntryCountJoin | extras/include/seqan/vcf_io/write_bcf.h:246-257 | two fields joined by a separator have the sum of their entries |
| WriteBcf.CountEntriesAlt | extras/include/seqan/vcf_io/write_bcf.h:246-257 | the loop yields `EntryCount` |
| WriteBcf.LittleEndianRoundTrip | extras/include/seqan/vcf_io/write_bcf.h:273-298 | 4 bytes, each below 256, that decode to the value |
| WriteBcf.WellFormedPrefix | extras/include/seqan/vcf_io/write_bcf.h:143-177 | a prefix of well-formed header records is well formed |
| WriteBcf.HeaderFraming | extras/include/seqan/vcf_io/write_bcf.h:122-188 | header = "BCF\2\2", 32-bit length of the text, the text; the text ends with "\n\0" |
| WriteBcf.LineShape | extras/include/seqan/vcf_io/write_bcf.h:145-176 | each line is "##key=value" then "\n", verbatim for other keys and repeated INFO/FORMAT/FILTER ids; a contig line ends ",IDX=n>" in place of the last character, with n the contig counter, which then advances by one; a new INFO/FORMAT/FILTER id ends ",IDX=n>" with n its position in the store it is appended to |
| WriteBcf.ContigLine | extras/include/seqan/vcf_io/write_bcf.h:149-158 | a contig line is annotated with the writer's contig counter |
| WriteBcf.ContigLineNumber | extras/include/seqan/vcf_io/write_bcf.h:149-158 | within a header, the line of a contig record carries IDX = the starting counter plus the number of contig records before it (so IDX=k for the k-th contig from an empty writer) |
| WriteBcf.RestPrefixGrows | extras/include/seqan/vcf_io/write_bcf.h:159-175 | the INFO/FORMAT/FILTER store after any prefix of the header is a prefix of the store after the whole header |
| WriteBcf.RestLineNumber | extras/include/seqan/vcf_io/write_bcf.h:159-175 | the line of a first-seen INFO/FORMAT/FILTER id carries IDX = n, and n is that id's position in the store after the whole header |
| WriteBcf.ContigNumbering | extras/include/seqan/vcf_io/write_bcf.h:149-158 | the contig counter advances once per contig record and the contig store gains their ids in header order, repeats included; the other store only grows |
| WriteBcf.NextDictsRest | extras/include/seqan/vcf_io/write_bcf.h:159-175 | one INFO/FORMAT/FILTER line keeps the store free of repeats, only extends it, and leaves its id in it |
| WriteBcf.RestDistinct | extras/include/seqan/vcf_io/write_bcf.h:159-175 | after any header prefix the INFO/FORMAT/FILTER store never holds an id twice |
| WriteBcf.RestComplete | extras/include/seqan/vcf_io/write_bcf.h:159-175 | after the header every INFO/FORMAT/FILTER id is in the store |
| WriteBcf.BitOrDisjoint | extras/include/seqan/vcf_io/write_bcf.h:293-297 | OR of a shifted value with a smaller one is their sum |
| WriteBcf.AlleleInfoUnpacks | extras/include/seqan/vcf_io/write_bcf.h:293 | `n_allele_info` = alleles·2^16 + info, from which both counts read back |
| WriteBcf.FmtSampleUnpacks | extras/include/seqan/vcf_io/write_bcf.h:297 | `n_fmt_sample` = formats·2^24 + samples, from which both counts read back |
| WriteBcf.EncodeWordsDecode | extras/include/seqan/vcf_io/write_bcf.h:273-298 | word k of the record prefix decodes from bytes 4k..4k+4 |
| WriteBcf.FixedFieldsHead | extras/include/seqan/vcf_io/write_bcf.h:272-281 | l_shared and l_indiv read back as 0, CHROM as the contig index when it fits 32 bits |
| WriteBcf.FixedFieldsCounts | extras/include/seqan/vcf_io/write_bcf.h:292-298 | the two packed words read back as allele/info and format/sample counts when these fit their fields |
| WriteBcf.RecordFixedFields | extras/include/seqan/vcf_io/write_bcf.h:272-298 | l_shared = l_indiv = 0, CHROM = contig index, POS, rlen, QUAL bits and the two packed counts, each 32-bit little-endian |
| WriteBcf.BcfContext.constructor | extras/include/seqan/vcf_io/write_bcf.h:201-205 | empty name stores |
| WriteBcf.BcfContext.AppendHeaderLine | extras/include/seqan/vcf_io/write_bcf.h:145-176 | one header line and the resulting stores and contig counter |
| WriteBcf.BcfContext.WriteHeader | extras/include/seqan/vcf_io/write_bcf.h:109-189 | the stream gains exactly the header bytes; the stores end as the header lines leave them |
| WriteBcf.BcfContext.AppendColumns | extras/include/seqan/vcf_io/write_bcf.h:179-184 | the column line then "\t" + name per sample |
| WriteBcf.BcfContext.WriteRecordFixedFields | extras/include/seqan/vcf_io/write_bcf.h:258-298 | the stream gains the eight fixed words; the stores are unchanged |
| WriteBcf.BcfContext.AppendWords | extras/include/seqan/vcf_io/write_bcf.h:273-298 | `appendRawPod` of each word in turn |
| WriteBcf.Write | extras/include/seqan/vcf_io/write_bcf.h:191-208 | header `write` with fresh stores |
| PrimerId.Complement | extras/apps/primer_id_identifyer/primer_id_identifyer.cpp:232-234 | N and only N complements to N (with `ReverseComplementInvolution`, complementing twice restores every base) |
| PrimerId.ReverseComplementAt | extras/apps/primer_id_identifyer/primer_id_identifyer.cpp:232-234 | position i holds the complement of position n − 1 − i |
| PrimerId.ReverseComplementInvolution | extras/apps/primer_id_identifyer/primer_id_identifyer.cpp:372-376 | reverse-complementing twice restores the pattern |
| PrimerId.Dna5Text | extras/apps/primer_id_identifyer/primer_id_identifyer.cpp:163 | sequence text has one letter per base and no tab |
| PrimerId.SplitCovers | extras/apps/primer_id_identifyer/primer_id_identifyer.cpp:220-221 | left = first 3/5, right = from 2/5; together they cover the reference and overlap in [2n/5, 3n/5) |
| PrimerId.SqLinesSnoc | extras/apps/primer_id_identifyer/primer_id_identifyer.cpp:219 | one `@SQ` line per reference, in order |
| PrimerId.SplitReferences | extras/apps/primer_id_identifyer/primer_id_identifyer.cpp:208-222 | header = `@HD` line + one `@SQ` line with the whole length per reference; left and right parts as split |
| PrimerId.ComplementParts | extras/apps/primer_id_identifyer/primer_id_identifyer.cpp:224-235 | the reverse complement of every part |
| PrimerId.SegmentsOfFirstReference | extras/apps/primer_id_identifyer/primer_id_identifyer.cpp:273-280 | for a first reference of 34 or more bases: its first and last 20 bases and their reverse complements |
| PrimerId.PatternSides | extras/apps/primer_id_identifyer/primer_id_identifyer.cpp:320-321 | the first and the last 20 bases of the pattern |
| PrimerId.Orientation | extras/apps/primer_id_identifyer/primer_id_identifyer.cpp:323-346 | the first of the four candidates with the largest score |
| PrimerId.OrientationScores | extras/apps/primer_id_identifyer/primer_id_identifyer.cpp:324-341 | four scores, in comparison order |
| PrimerId.AlignedAt | extras/apps/primer_id_identifyer/primer_id_identifyer.cpp:355-358 | part j is aligned with the pattern it sees |
| PrimerId.AlignAll | extras/apps/primer_id_identifyer/primer_id_identifyer.cpp:355-421 | one alignment per part; with a flip, part j sees the reverse complement exactly when j is even; the pattern ends reverse-complemented exactly for an odd number of parts |
| PrimerId.OrientAndAlign | extras/apps/primer_id_identifyer/primer_id_identifyer.cpp:316-421 | the pattern's orientation, the side it selects (left for 0 and 1, right for 2 and 3), whether it is flipped (1 and 3), the alignments against every part of that side, and the pattern each part saw (in orientations 1 and 3 the pattern is reverse-complemented once per part, so even-indexed parts see its reverse complement) |
| PrimerId.Scores | extras/apps/primer_id_identifyer/primer_id_identifyer.cpp:358-359 | the score of every alignment, in order |
| PrimerId.SelectionAsWritten | extras/apps/primer_id_identifyer/primer_id_identifyer.cpp:353-364 | as written: an index in −1..n−1; a chosen reference carries its own score, above INT_MIN; −1 leaves the score at INT_MIN |
| PrimerId.SelectionAsWrittenMeaning | extras/apps/primer_id_identifyer/primer_id_identifyer.cpp:353-364 | as written: −1 exactly when there is no reference or every score is INT_MIN, else the first best reference |
| PrimerId.SelectionAsWrittenMissesReference | extras/apps/primer_id_identifyer/primer_id_identifyer.cpp:353-365 | one reference scoring INT_MIN yields −1, which then indexes the references |
| PrimerId.Selection | extras/apps/primer_id_identifyer/primer_id_identifyer.cpp:353-364 | corrected: none exactly when there is no reference, else the first best one |
| PrimerId.SelectionAgrees | extras/apps/primer_id_identifyer/primer_id_identifyer.cpp:353-364 | both selections agree when some score exceeds INT_MIN |
| PrimerId.SelectReferenceAsWritten | extras/apps/primer_id_identifyer/primer_id_identifyer.cpp:353-364 | the loop yields `SelectionAsWritten` |
| PrimerId.SelectReference | extras/apps/primer_id_identifyer/primer_id_identifyer.cpp:353-364 | the corrected loop yields `Selection` |
| PrimerId.SamFields | extras/apps/primer_id_identifyer/primer_id_identifyer.cpp:151-164 | eleven fields: QNAME, FLAG 2, RNAME, POS, MAPQ 0, CIGAR, "*", 0, 0, SEQ, "*" |
| PrimerId.JoinTabsCount | extras/apps/primer_id_identifyer/primer_id_identifyer.cpp:151-164 | n fields without tabs are joined with n − 1 tabs |
| PrimerId.SamFieldsNoTabs | extras/apps/primer_id_identifyer/primer_id_identifyer.cpp:151-164 | with tab-free ids and CIGAR, no SAM field holds a tab |
| PrimerId.JoinedLineCount | extras/apps/primer_id_identifyer/primer_id_identifyer.cpp:151-164 | a tab-joined line of n tab-free fields plus newline holds n − 1 tabs |
| PrimerId.SamLineAsWritten | extras/apps/primer_id_identifyer/primer_id_identifyer.cpp:151-164 | the line as written starts with QNAME and ends with a newline |
| PrimerId.SamLine | extras/apps/primer_id_identifyer/primer_id_identifyer.cpp:151-164 | the corrected line starts with QNAME and ends with a newline |
| PrimerId.SamLineSeparators | extras/apps/primer_id_identifyer/primer_id_identifyer.cpp:154-157 | the intended line has 10 tabs; as written a reverse-complemented line has 9 |
| PrimerId.MapPattern | extras/apps/primer_id_identifyer/primer_id_identifyer.cpp:316-433 | orientation as above; left parts for orientations 0 and 1, right parts for 2 and 3, reverse-complementing for 1 and 3; the reference is the one the (INT_MIN, −1) loop picks, and the line is that reference's SAM line as written (no tab after POS in orientations 1 and 3), whose SEQ is the pattern as the chosen reference saw it (`assignSource` copies it into that alignment's row); no line exactly when the loop leaves the index at −1 |
| PrimerId.MapPatternIntended | extras/apps/primer_id_identifyer/primer_id_identifyer.cpp:316-433 | the same work with the corrected selection and the line with all eleven fields tab-separated; no line only without references |
| BlastpBenchmark.Thresholds | sandbox/jsinger/apps/create_blastp_benchmark/create_blastp_benchmark.cpp:209-234 | 21 thresholds starting at 0, strictly increasing |
| BlastpBenchmark.ThresholdsMonotone | sandbox/jsinger/apps/create_blastp_benchmark/create_blastp_benchmark.cpp:209-234 | the thresholds are non-decreasing between any two ranks |
| BlastpBenchmark.BucketUnique | sandbox/jsinger/apps/create_blastp_benchmark/create_blastp_benchmark.cpp:261-270 | a draw lies in exactly one amino acid's interval |
| BlastpBenchmark.CountNotAboveSplit | sandbox/jsinger/apps/create_blastp_benchmark/create_blastp_benchmark.cpp:261-270 | the thresholds reached by a draw are exactly the first ones |
| BlastpBenchmark.AminoAcidDB | sandbox/jsinger/apps/create_blastp_benchmark/create_blastp_benchmark.cpp:261-270 | the amino acid of a draw is the one whose threshold interval holds the draw |
| BlastpBenchmark.AminoAcidDBBucket | sandbox/jsinger/apps/create_blastp_benchmark/create_blastp_benchmark.cpp:261-270 | the amino acid of a draw is the one whose interval holds it; always in 0..19 |
| BlastpBenchmark.GetAminoAcidDB | sandbox/jsinger/apps/create_blastp_benchmark/create_blastp_benchmark.cpp:261-270 | i − 1 for the first i in 1..19 with a threshold above the draw, else 19: the number of thresholds reached |
| BlastpBenchmark.Increment | sandbox/jsinger/apps/create_blastp_benchmark/create_blastp_benchmark.cpp:317 | one counter goes up by one, the others are kept, the sum goes up by one |
| BlastpBenchmark.AddCountsMeaning | sandbox/jsinger/apps/create_blastp_benchmark/create_blastp_benchmark.cpp:313-318 | after a run of residues, counter a grew by the occurrences of a; the sum grew by the run's length |
| BlastpBenchmark.FreqMeaning | sandbox/jsinger/apps/create_blastp_benchmark/create_blastp_benchmark.cpp:296-318 | `dbFreq[a]` is the number of residues a generated; the counters add up to the number of residues |
| BlastpBenchmark.AppendResidues | sandbox/jsinger/apps/create_blastp_benchmark/create_blastp_benchmark.cpp:313-318 | the entry's residues are appended as letters and counted |
| BlastpBenchmark.AppendResidue | sandbox/jsinger/apps/create_blastp_benchmark/create_blastp_benchmark.cpp:316-317 | one residue: its letter is appended and only its counter goes up by one |
| BlastpBenchmark.AppendEntry | sandbox/jsinger/apps/create_blastp_benchmark/create_blastp_benchmark.cpp:304-319 | ">" + index + newline, residues, newline |
| BlastpBenchmark.CreateDatabase | sandbox/jsinger/apps/create_blastp_benchmark/create_blastp_benchmark.cpp:288-320 | the database text of all entries and the counters of all residues |
| BlastpBenchmark.Clamp | sandbox/jsinger/apps/create_blastp_benchmark/create_blastp_benchmark.cpp:403-407 | a read at least as long as the reference gets length refLen − 1 (2^32 − 1 after unsigned wrap-around for an empty reference) and indel length = excess; a shorter read is unchanged; a clamped read is shorter than a non-empty reference |
| BlastpBenchmark.StartRangeNonEmpty | sandbox/jsinger/apps/create_blastp_benchmark/create_blastp_benchmark.cpp:403-410 | the start range 0..refLen − 1 − entryLength is not empty |
| BlastpBenchmark.PlanAsWritten | sandbox/jsinger/apps/create_blastp_benchmark/create_blastp_benchmark.cpp:368-407 | as written: the indel kind is 1 or 2 when an indel is drawn and the previous read's kind otherwise; the clamped length is below the reference length |
| BlastpBenchmark.Plan | sandbox/jsinger/apps/create_blastp_benchmark/create_blastp_benchmark.cpp:368-407 | corrected: the kind is 0 exactly when no indel is drawn; the clamped length is below the reference length |
| BlastpBenchmark.PlanAgrees | sandbox/jsinger/apps/create_blastp_benchmark/create_blastp_benchmark.cpp:368-407 | a stale indel kind matters only for reads without an indel; it never changes the lengths; without an indel or a clamp the indel length is 0 |
| BlastpBenchmark.StaleIndelDeletes | sandbox/jsinger/apps/create_blastp_benchmark/create_blastp_benchmark.cpp:368-407 | after a deletion, a clamped read without an indel (50 on a reference of 40) is planned as a 10-residue deletion; with a reset it is not |
| BlastpBenchmark.ErrorCount | sandbox/jsinger/apps/create_blastp_benchmark/create_blastp_benchmark.cpp:421-432 | the error count never exceeds the number of substituted positions (exact counts in the two lemmas below) |
| BlastpBenchmark.ErrorCountWithoutDeletion | sandbox/jsinger/apps/create_blastp_benchmark/create_blastp_benchmark.cpp:421-432 | without a deletion every substitution is an error |
| BlastpBenchmark.ErrorCountDeletion | sandbox/jsinger/apps/create_blastp_benchmark/create_blastp_benchmark.cpp:421-432 | with a deletion, the errors are the substitutions before and after the deleted window |
| BlastpBenchmark.BuildRead | sandbox/jsinger/apps/create_blastp_benchmark/create_blastp_benchmark.cpp:418-432 | the read is the reference window with substitutes where errors hit; `numErrors` is `ErrorCount` |
| BlastpBenchmark.EditShape | sandbox/jsinger/apps/create_blastp_benchmark/create_blastp_benchmark.cpp:435-450 | deletion: length − l, prefix kept, tail shifted left; insertion: length and prefix kept, window refilled, tail shifted right with the last l dropped; l = 0 changes nothing |
| BlastpBenchmark.DeleteWindow | sandbox/jsinger/apps/create_blastp_benchmark/create_blastp_benchmark.cpp:435-440 | the left shift and `resize` remove [s, s + l) |
| BlastpBenchmark.ShiftRight | sandbox/jsinger/apps/create_blastp_benchmark/create_blastp_benchmark.cpp:443-444 | from the back, each element at or after s + l takes the one l places before it; the rest is kept |
| BlastpBenchmark.Refill | sandbox/jsinger/apps/create_blastp_benchmark/create_blastp_benchmark.cpp:445-449 | the window gets the database draws; the rest is kept |
| BlastpBenchmark.InsertWindow | sandbox/jsinger/apps/create_blastp_benchmark/create_blastp_benchmark.cpp:441-450 | the read becomes `Inserted`: prefix, refill, shifted tail |
| BlastpBenchmark.EditRead | sandbox/jsinger/apps/create_blastp_benchmark/create_blastp_benchmark.cpp:435-450 | the indel edit gives the deleted, the inserted or the unchanged read as the plan says |
| BlastpBenchmark.PlannedRead | sandbox/jsinger/apps/create_blastp_benchmark/create_blastp_benchmark.cpp:418-450 | for a given plan: the substituted window, then its indel edit, and the counted errors |
| BlastpBenchmark.CreateRead | sandbox/jsinger/apps/create_blastp_benchmark/create_blastp_benchmark.cpp:366-453 | plan (indel kind carried over), substituted read, error count and edited read of one read |

## Left out

- Concurrency: the OpenMP parallel loop and critical sections of the mapper and of the primer-id tool are not modelled; one worker is. All threads share one `finder`, which is a race no sequential model can show.
- Library internals: the suffix-array index build and `open`/`save`, the `Finder` search, `translate` and the genetic-code tables, `reverseComplement` on library strings, `globalAlignment`, `globalAlignmentScore`, `getCigarString` and the scoring schemes. They enter as parameters with the contracts the code relies on.
- I/O: reading FASTA, `readBatch`, `writeRecord` in GFF, `ofstream` output, memory-mapped strings, console messages and timing. Output files are sequences the model appends to.
- Command-line parsing and option defaults.
- Random number generation: every Mersenne-twister draw is a parameter.
- Floating point: `initDist`, `getAminoAcidRead` (substitutes are given), the frequency report with its ratios, and the benchmark's alignment scores are left out. The float thresholds are modelled as the reals they are written as. The report divides by the length of the whole database text, headers and newlines included, not by the residue count.
- Stream type machinery (`BasicStream`, open modes, magic headers, file extensions, concepts) has no behaviour, and the stream-iterator `writeValue` overload is left out.
- StreamBase.Container.WriteChunked: the output chunk is a fresh buffer, and `reserveChunk`/`advanceChunk` are modelled as appending it. The target's real capacity is not modelled.
- SuffixTreeMapping.Worker.constructor: an index loaded by `open` (suffix_tree_mapping.cpp:266) is assumed to belong to the references just read; nothing in the program compares them. A loaded index with more entries than 6·|dbIds| (DNA) or |dbIds| (peptide) makes the source index `dbIds` and `origLength` out of range at lines 380-382 and 409, which is undefined and not modelled. A loaded index of a different reference file with a count in range (wrong names and lengths) is still modelled.
- SuffixTreeMapping.PrepareIndex: the suffix-array value of the index is `Pair<unsigned short, unsigned>` (suffix_tree_mapping.cpp:49-53), so with more than 65,536 indexed entries (over 10,922 DNA references, or 65,536 proteins) the reported sequence number wraps modulo 2^16 and names the wrong reference. The model's sequence numbers are unbounded, and the search abstraction reports exact ones.
- SuffixTreeMapping.PrepareIndex: in peptide mode the raw characters are converted to the `AminoAcid` alphabet when appended (lines 316-317). The model indexes the characters as read, so it does not capture letters the conversion changes.
- GenomicLocation.GenomicLocationSet: the source always returns true; the model returns only the interval.
- WriteBcf.BcfContext.WriteRecordFixedFields: only the eight fixed words of a record are modelled. Left out are the typed ID, allele, FILTER and INFO bytes, the console pause and debug output, and QUAL as a float (its bit pattern is a parameter). The record loop of the header-and-records `write` is left out with them. It also requires the record's chromosome to be in the contig store, where the source ignores `getIdByName`'s result and writes an uninitialised `idx` (write_bcf.h:279), and requires non-empty REF, ALT, INFO and FORMAT fields, where `_countEntriesAlt` calls `back()` on the field (write_bcf.h:253).
- WriteBcf.GetBcfDictionaryId: requires a ',' after the first '=', because the scan has no end check. Without one, the source reads past the value.
- WriteBcf.IdAfter: the same requirement as `GetBcfDictionaryId`.
- WriteBcf.CopyUntilComma: requires the ',' that ends the copy, for the same reason.
- PrimerId.MapPattern: the work for one pattern only. The output stream is closed inside the pattern-file loop, so writes for later files go to a closed stream; the file loop is not modelled. Patterns shorter than 20 bases are excluded: `prefix`/`suffix` would take more than the pattern holds. The `default` branch of the switch cannot be reached, because the orientation is always 0..3. When the selection loop leaves the index at −1 (every alignment scored INT_MIN), the source indexes its alignments and reference names with −1, which is undefined; the model writes no line there. A run without references never gets this far: `refSeqsLeft[0]` and `refSeqsRight[0]` are read at lines 274-278 before any pattern, so the model's empty reference list stands for nothing the program does.
- PrimerId.SegmentsOfFirstReference: the segments are stated only for a first reference of at least 34 bases. The source takes `prefix`/`suffix` of shorter parts without a check.
- BlastpBenchmark.InsertWindow: requires 1 ≤ s + l. The right-shift loop compares an `int` with an `unsigned` bound, and with s + l = 0 it runs below index 0. The draw range of the insertion start (from 3) excludes that case.
- BlastpBenchmark.CreateRead: requires the read window and the indel window to fit. The source obtains this from the ranges it draws from, and those ranges can wrap for very short reads. The 32-bit counters of `dbFreq` and `numErrors` are unbounded in the model.
- BlastpBenchmark.PlannedRead: the same window requirements as `CreateRead`, stated on the plan.
- BlastpBenchmark.EditRead: requires the indel window to fit the read, as `CreateRead` does.
- BlastpBenchmark.CreateDatabase: the entry length draw is the length of that entry's draw sequence.

## Findings

| source | as written | input that shows it | evidently intended | confidence | as-written member | corrected member |
|---|---|---|---|---|---|---|
| sandbox/jsinger/apps/suffix_tree_mapping/suffix_tree_mapping.cpp:385 | the strand is '+' when the hit OFFSET `i2 % 6 > 2` | a hit in forward frame 0 at offset 0 is labelled '-' | '+' exactly for the forward frames `i1 % 6 < 3` | high, not executed | SuffixTreeMapping.StrandAsWrittenMislabels | SuffixTreeMapping.DnaRecordIntended |
| core/include/seqan/stream/stream_base.h:420-423 | beyond the end, the container is resized to pos − 1 before appending | empty container, iterator at 1: the value lands at 0 and the iterator moves to 2 | resize to pos, so the value lands at the iterator's position | high, not executed | StreamBase.IterWriteOffByOne | StreamBase.IterWriteStores |
| extras/apps/primer_id_identifyer/primer_id_identifyer.cpp:154-157 | when reverse-complemented, POS is written without the following tab | any reverse-complemented line: 9 tabs instead of 10, so POS and MAPQ run together | a tab after POS in both branches | high, not executed | PrimerId.SamLineSeparators | PrimerId.SamLine |
| extras/apps/primer_id_identifyer/primer_id_identifyer.cpp:353-365 | the best reference starts at −1 with INT_MIN and is replaced only by a strictly greater score | one reference whose alignment scores INT_MIN: index −1 picks the alignment and the name | the first reference is always a candidate | medium, not executed | PrimerId.SelectionAsWrittenMissesReference | PrimerId.Selection |
| sandbox/jsinger/apps/create_blastp_benchmark/create_blastp_benchmark.cpp:368-395 | the indel kind is assigned only when an indel is drawn and is never reset | a deletion read, then a read of 50 without an indel on a reference of 40: clamped to 39 and 10 residues deleted | reset the kind for every read, so a read without an indel is not edited | medium, not executed | BlastpBenchmark.StaleIndelDeletes | BlastpBenchmark.Plan |
