// `genomicLocationSet` of the suffix-tree mapper: turns a hit inside one of
// the six translated frames of a DNA reference back into a nucleotide
// interval on that reference.
//
// Frames 0, 1, 2 are the forward reading frames starting at nucleotide 0, 1
// and 2; frames 3, 4, 5 are the same three frames read on the reverse
// complement. The translated collection holds the six frames of reference k
// at positions 6k .. 6k+5, so the frame of a hit is `seqId % 6`.
module GenomicLocation {
  import opened Common

  /** A position in the indexed collection: sequence number and offset in it. */
  datatype Occurrence = Occurrence(seqId: nat, offset: nat)

  /** A half-open nucleotide interval as stored in a `Pair<unsigned>`. */
  datatype Interval = Interval(begin: u32, end: u32)

  /** Number of whole codons in reading frame `f` (0..2) of a sequence of
      `len` nucleotides; an incomplete trailing codon yields nothing. */
  function CodonCount(len: nat, f: nat): (n: nat)
    requires f < 3
    ensures 3 * n + f <= len || (n == 0 && len < f)
    ensures len >= f ==> len < 3 * (n + 1) + f
  {
    if len < f then 0 else (len - f) / 3
  }

  /** A forward-frame case of the switch: the interval starts at nucleotide
      `genomicStart` and spans three nucleotides per residue, both wrapped. */
  function ForwardInterval(genomicStart: nat, queryLength: u32): (r: Interval)
    ensures Congruent32(r.begin, genomicStart)
    ensures Congruent32(r.end - r.begin, 3 * queryLength)
  {
    var b := Wrap32(genomicStart);
    Interval(b, Wrap32(b + queryLength * 3))
  }

  /** A reverse-frame case of the switch: [genomicStartR, genomicEndR) on the
      reverse complement is [L - genomicEndR, L - genomicStartR) on the
      reference, both ends computed in `unsigned`. */
  function ReverseInterval(genomicStartR: nat, queryLength: u32, dbHitLength: u32): (r: Interval)
    ensures Congruent32(r.end, dbHitLength - genomicStartR)
    ensures Congruent32(r.end - r.begin, 3 * queryLength)
  {
    var genomicEndR := genomicStartR + queryLength * 3;
    Wrap32Difference(dbHitLength - genomicStartR, dbHitLength - genomicEndR);
    Interval(Wrap32(dbHitLength - genomicEndR), Wrap32(dbHitLength - genomicStartR))
  }

  /** The six-case switch. Every intermediate of the source is an `unsigned`
      or an `int` converted to and from `unsigned`, so all of it is arithmetic
      modulo 2^32 and only the stored result needs wrapping. */
  function GenomicLocationSet(hit: Occurrence, queryLength: u32, dbHitLength: u32): (r: Interval)
    ensures Congruent32(r.end - r.begin, 3 * queryLength)
    ensures hit.seqId % 6 < 3 ==> Congruent32(r.begin, 3 * hit.offset + hit.seqId % 6)
    ensures hit.seqId % 6 >= 3 ==> Congruent32(r.end, dbHitLength - (3 * hit.offset + hit.seqId % 6 - 3))
  {
    var start := hit.offset;
    match hit.seqId % 6
    case 0 => ForwardInterval(start * 3, queryLength)
    case 1 => ForwardInterval(start * 3 + 1, queryLength)
    case 2 => ForwardInterval(start * 3 + 2, queryLength)
    case 3 => ReverseInterval(start * 3, queryLength, dbHitLength)
    case 4 => ReverseInterval(start * 3 + 1, queryLength, dbHitLength)
    case _ => ReverseInterval(start * 3 + 2, queryLength, dbHitLength)
  }

  /** Frames 0..2: the interval starts at codon `offset` of the frame and
      spans three nucleotides per query residue. */
  lemma ForwardFrames(hit: Occurrence, queryLength: u32, dbHitLength: u32)
    requires hit.seqId % 6 < 3
    requires 3 * (hit.offset + queryLength) + hit.seqId % 6 < TWO_POW_32
    ensures GenomicLocationSet(hit, queryLength, dbHitLength).begin == 3 * hit.offset + hit.seqId % 6
    ensures GenomicLocationSet(hit, queryLength, dbHitLength).end
         == 3 * hit.offset + hit.seqId % 6 + 3 * queryLength
  {
  }

  /** Frames 3..5: with f' = frame - 3, the hit covers [rawBegin, rawEnd) of
      the reverse complement, which is [L - rawEnd, L - rawBegin) of the
      reference, provided rawEnd <= L. */
  lemma ReverseFrames(hit: Occurrence, queryLength: u32, dbHitLength: u32)
    requires hit.seqId % 6 >= 3
    requires 3 * (hit.offset + queryLength) + hit.seqId % 6 - 3 <= dbHitLength
    ensures GenomicLocationSet(hit, queryLength, dbHitLength).begin
         == dbHitLength - (3 * (hit.offset + queryLength) + hit.seqId % 6 - 3)
    ensures GenomicLocationSet(hit, queryLength, dbHitLength).end
         == dbHitLength - (3 * hit.offset + hit.seqId % 6 - 3)
  {
  }

  /** Without rawEnd <= L the unsigned subtraction wraps: the begin lands
      beyond the reference, 2^32 further than the exact difference. */
  lemma ReverseFramesWrap(hit: Occurrence, queryLength: u32, dbHitLength: u32)
    requires hit.seqId % 6 >= 3
    requires dbHitLength < 3 * (hit.offset + queryLength) + hit.seqId % 6 - 3 < TWO_POW_32
    ensures GenomicLocationSet(hit, queryLength, dbHitLength).begin
         == dbHitLength - (3 * (hit.offset + queryLength) + hit.seqId % 6 - 3) + TWO_POW_32
    ensures GenomicLocationSet(hit, queryLength, dbHitLength).begin > dbHitLength
  {
    Wrap32Negative(dbHitLength - (3 * (hit.offset + queryLength) + hit.seqId % 6 - 3));
  }

  /** A reverse-frame interval is the mirror image, in the reference, of the
      forward-frame interval with the same offset. */
  lemma MirroredFrames(seqId: nat, offset: nat, queryLength: u32, dbHitLength: u32)
    requires seqId % 6 < 3
    requires 3 * (offset + queryLength) + seqId % 6 <= dbHitLength
    ensures var fwd := GenomicLocationSet(Occurrence(seqId, offset), queryLength, dbHitLength);
            var rev := GenomicLocationSet(Occurrence(seqId + 3, offset), queryLength, dbHitLength);
            rev.begin == dbHitLength - fwd.end && rev.end == dbHitLength - fwd.begin
  {
    var fwd := GenomicLocationSet(Occurrence(seqId, offset), queryLength, dbHitLength);
    assert (seqId + 3) % 6 == seqId % 6 + 3;
    ForwardFrames(Occurrence(seqId, offset), queryLength, dbHitLength);
    ReverseFrames(Occurrence(seqId + 3, offset), queryLength, dbHitLength);
  }

  /** A hit of a non-empty query that lies inside its translated frame
      (offset + queryLength codons fit in the frame) maps to an interval of
      exactly 3 * queryLength nucleotides inside [0, L), in all six frames. */
  lemma HitInsideReference(hit: Occurrence, queryLength: u32, dbHitLength: u32)
    requires queryLength > 0
    requires hit.offset + queryLength <= CodonCount(dbHitLength, hit.seqId % 6 % 3)
    ensures var r := GenomicLocationSet(hit, queryLength, dbHitLength);
            r.begin <= r.end <= dbHitLength && r.end - r.begin == 3 * queryLength
  {
    var f := hit.seqId % 6 % 3;
    var n := CodonCount(dbHitLength, f);
    assert 3 * (hit.offset + queryLength) <= 3 * n;
    if hit.seqId % 6 < 3 {
      ForwardFrames(hit, queryLength, dbHitLength);
    } else {
      ReverseFrames(hit, queryLength, dbHitLength);
    }
  }

  /** Forward frame 0, offset 10, five residues: nucleotides [30, 45). */
  lemma ExampleForwardFrame()
    ensures GenomicLocationSet(Occurrence(0, 10), 5, 100) == Interval(30, 45)
  {
  }

  /** Reverse frame 3, offset 10, five residues, reference of 100: [55, 70). */
  lemma ExampleReverseFrame()
    ensures GenomicLocationSet(Occurrence(3, 10), 5, 100) == Interval(55, 70)
  {
  }
}
