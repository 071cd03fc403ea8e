// The primer-id identifier: each reference is split into an overlapping
// left 3/5 and right 3/5, every pattern (read) is oriented against
// positioning segments taken from the first reference, aligned against all
// left or all right parts, and the best reference is written as a SAM line
// (section 1.3 of the SAM v1 specification for the header, section 1.4 for
// the mandatory fields).
//
// Alignment is library code: an `Aligner` gives, for a reference part and a
// pattern, the score, the first entry of the pattern row's gap array and the
// CIGAR text; a `Scorer` gives the score used to orient a pattern.
module PrimerId {
  import opened Common

  // ---------------------------------------------------------------------
  // Nucleotides
  // ---------------------------------------------------------------------

  datatype Dna5 = A | C | G | T | N

  function Complement(b: Dna5): (c: Dna5)
    ensures (b == N) <==> (c == N)
  {
    match b
    case A => T
    case C => G
    case G => C
    case T => A
    case N => N
  }

  function ReverseComplement(s: seq<Dna5>): (r: seq<Dna5>)
    ensures |r| == |s|
  {
    if |s| == 0 then [] else [Complement(s[|s| - 1])] + ReverseComplement(s[..|s| - 1])
  }

  /** Position i of the reverse complement holds the complement of position
      |s| - 1 - i. */
  lemma {:induction false} ReverseComplementAt(s: seq<Dna5>)
    ensures forall i :: 0 <= i < |s| ==> ReverseComplement(s)[i] == Complement(s[|s| - 1 - i])
    decreases |s|
  {
    if |s| > 0 {
      ReverseComplementAt(s[..|s| - 1]);
    }
  }

  /** Reverse-complementing twice gives the sequence back. */
  lemma ReverseComplementInvolution(s: seq<Dna5>)
    ensures ReverseComplement(ReverseComplement(s)) == s
  {
    var r := ReverseComplement(ReverseComplement(s));
    ReverseComplementAt(s);
    ReverseComplementAt(ReverseComplement(s));
    forall i | 0 <= i < |s| ensures r[i] == s[i] {
      assert Complement(Complement(s[i])) == s[i];
    }
  }

  function Dna5Char(b: Dna5): char {
    match b
    case A => 'A'
    case C => 'C'
    case G => 'G'
    case T => 'T'
    case N => 'N'
  }

  function Dna5Text(s: seq<Dna5>): (t: string)
    ensures |t| == |s| && '\t' !in t
  {
    if |s| == 0 then [] else Dna5Text(s[..|s| - 1]) + [Dna5Char(s[|s| - 1])]
  }

  // ---------------------------------------------------------------------
  // Reference split and SAM header
  // ---------------------------------------------------------------------

  /** The left part: the reference truncated to 3/5 of its length. */
  function LeftPart(ref: seq<Dna5>): seq<Dna5> {
    ref[..3 * |ref| / 5]
  }

  /** The right part: the suffix from 2/5 of the length. */
  function RightPart(ref: seq<Dna5>): seq<Dna5> {
    ref[2 * |ref| / 5..]
  }

  /** The two parts cover the reference and overlap in its middle fifth. */
  lemma SplitCovers(ref: seq<Dna5>)
    ensures var l, r := LeftPart(ref), RightPart(ref);
            var lo, hi := 2 * |ref| / 5, 3 * |ref| / 5;
            lo <= hi &&
            l == ref[..hi] && r == ref[lo..] &&
            l[..lo] + r == ref && l + r[hi - lo..] == ref &&
            l[lo..] == r[..hi - lo]
  {
    var lo, hi := 2 * |ref| / 5, 3 * |ref| / 5;
    assert ref[..hi][..lo] + ref[lo..] == ref[..lo] + ref[lo..];
    assert ref[..hi] + ref[lo..][hi - lo..] == ref[..hi] + ref[hi..];
  }

  const HdLine: string := "@HD\tVN:1.5\tSO:coordinate\n"

  /** One `@SQ` line: name and the length of the WHOLE reference. */
  function SqLine(id: string, ref: seq<Dna5>): string {
    "@SQ\tSN:" + id + "\tLN:" + DecimalString(|ref|) + "\n"
  }

  function SqLines(ids: seq<string>, refs: seq<seq<Dna5>>): string
    requires |ids| == |refs|
  {
    if |refs| == 0 then [] else SqLines(ids[..|ids| - 1], refs[..|refs| - 1]) + SqLine(ids[|ids| - 1], refs[|refs| - 1])
  }

  lemma SqLinesSnoc(ids: seq<string>, refs: seq<seq<Dna5>>, i: nat)
    requires |ids| == |refs| && i < |refs|
    ensures SqLines(ids[..i + 1], refs[..i + 1]) == SqLines(ids[..i], refs[..i]) + SqLine(ids[i], refs[i])
  {
    assert ids[..i + 1][..i] == ids[..i] && refs[..i + 1][..i] == refs[..i];
  }

  /** The header lines, the split parts and their reverse complements. */
  datatype Prepared = Prepared(
    header: string,
    left: seq<seq<Dna5>>,
    right: seq<seq<Dna5>>,
    leftComp: seq<seq<Dna5>>,
    rightComp: seq<seq<Dna5>>)

  /** The first preparation loop of `main`: write `@SQ` for every reference,
      then take the right part and truncate the left part in place. */
  method SplitReferences(refIds: seq<string>, refSeqs: seq<seq<Dna5>>)
    returns (header: string, left: seq<seq<Dna5>>, right: seq<seq<Dna5>>)
    requires |refIds| == |refSeqs|
    ensures header == HdLine + SqLines(refIds, refSeqs)
    ensures |left| == |right| == |refSeqs|
    ensures forall i :: 0 <= i < |refSeqs| ==> left[i] == LeftPart(refSeqs[i]) && right[i] == RightPart(refSeqs[i])
  {
    header := HdLine;
    left := refSeqs;
    right := seq(|refSeqs|, _ => []);
    var i := 0;
    while i < |refSeqs|
      invariant 0 <= i <= |refSeqs|
      invariant header == HdLine + SqLines(refIds[..i], refSeqs[..i])
      invariant |left| == |right| == |refSeqs|
      invariant forall k :: 0 <= k < i ==> left[k] == LeftPart(refSeqs[k]) && right[k] == RightPart(refSeqs[k])
      invariant forall k :: i <= k < |refSeqs| ==> left[k] == refSeqs[k]
    {
      SqLinesSnoc(refIds, refSeqs, i);
      var whole := left[i];
      assert whole == refSeqs[i];
      ConcatRegroup(HdLine, SqLines(refIds[..i], refSeqs[..i]), SqLine(refIds[i], whole));
      header := header + SqLine(refIds[i], whole);
      right := right[i := RightPart(whole)];
      left := left[i := LeftPart(whole)];
      i := i + 1;
    }
    assert refIds[..i] == refIds && refSeqs[..i] == refSeqs;
  }

  /** The second preparation loop: reverse-complemented copies of the parts. */
  method ComplementParts(left: seq<seq<Dna5>>, right: seq<seq<Dna5>>)
    returns (leftComp: seq<seq<Dna5>>, rightComp: seq<seq<Dna5>>)
    requires |left| == |right|
    ensures |leftComp| == |rightComp| == |left|
    ensures forall i :: 0 <= i < |left| ==>
              leftComp[i] == ReverseComplement(left[i]) && rightComp[i] == ReverseComplement(right[i])
  {
    leftComp, rightComp := [], [];
    for k := 0 to |left|
      invariant |leftComp| == |rightComp| == k
      invariant forall m :: 0 <= m < k ==>
                  leftComp[m] == ReverseComplement(left[m]) && rightComp[m] == ReverseComplement(right[m])
    {
      leftComp := leftComp + [ReverseComplement(left[k])];
      rightComp := rightComp + [ReverseComplement(right[k])];
    }
  }

  // ---------------------------------------------------------------------
  // Orientation
  // ---------------------------------------------------------------------

  /** The four positioning segments, from the first reference. */
  datatype Segments = Segments(left: seq<Dna5>, leftComp: seq<Dna5>, right: seq<Dna5>, rightComp: seq<Dna5>)

  /** First 20 of the first left part, last 20 of the first right part, and
      their reverse complements. */
  function PositioningSegments(left0: seq<Dna5>, right0: seq<Dna5>): Segments
    requires |left0| >= 20 && |right0| >= 20
  {
    var l := left0[..20];
    var r := right0[|right0| - 20..];
    Segments(l, ReverseComplement(l), r, ReverseComplement(r))
  }

  /** For a first reference of at least 34 bases, the segments are its first
      and last 20 bases, and each complement segment turns back into its
      segment. */
  lemma SegmentsOfFirstReference(ref0: seq<Dna5>)
    requires |ref0| >= 34
    ensures var s := PositioningSegments(LeftPart(ref0), RightPart(ref0));
            s.left == ref0[..20] && s.right == ref0[|ref0| - 20..] &&
            ReverseComplement(s.leftComp) == s.left && ReverseComplement(s.rightComp) == s.right
  {
    var s := PositioningSegments(LeftPart(ref0), RightPart(ref0));
    assert 3 * |ref0| / 5 >= 20;
    assert |ref0| - 2 * |ref0| / 5 >= 20;
    ReverseComplementInvolution(s.left);
    ReverseComplementInvolution(s.right);
  }

  /** The first and the last 20 bases of a pattern. */
  datatype Sides = Sides(left: seq<Dna5>, right: seq<Dna5>)

  function PatternSides(pattern: seq<Dna5>): (s: Sides)
    requires |pattern| >= 20
    ensures |s.left| == 20 && |s.right| == 20
    ensures s.left <= pattern
    ensures forall i :: 0 <= i < 20 ==> s.right[i] == pattern[|pattern| - 20 + i]
  {
    Sides(pattern[..20], pattern[|pattern| - 20..])
  }

  /** `m` is the first index of a largest value among the first `n`. */
  ghost predicate IsFirstMax(scores: seq<int>, m: nat, n: nat)
    requires n <= |scores|
  {
    m < n && (forall k :: 0 <= k < n ==> scores[k] <= scores[m]) && (forall k :: 0 <= k < m ==> scores[k] < scores[m])
  }

  /** The orientation: start with candidate 0, switch only to a strictly
      greater score. */
  function Orientation(scores: seq<int>): (r: nat)
    requires |scores| == 4
    ensures r < 4 && IsFirstMax(scores, r, 4)
  {
    var best := 0;
    var best := if scores[1] > scores[best] then 1 else best;
    var best := if scores[2] > scores[best] then 2 else best;
    if scores[3] > scores[best] then 3 else best
  }

  /** `globalAlignmentScore` with the bit-vector algorithm. */
  type Scorer = (seq<Dna5>, seq<Dna5>) -> int

  /** The four scores in the order the code compares them. */
  function OrientationScores(segs: Segments, sides: Sides, score: Scorer): (s: seq<int>)
    ensures |s| == 4
  {
    [score(segs.left, sides.left), score(segs.leftComp, sides.right),
     score(segs.right, sides.right), score(segs.rightComp, sides.left)]
  }

  // ---------------------------------------------------------------------
  // Alignment against every part
  // ---------------------------------------------------------------------

  datatype Alignment = Alignment(score: int32, firstGap: nat, cigar: string)

  /** `globalAlignment` of a pattern against a reference part, with the gap
      array's first entry and `getCigarString`. */
  type Aligner = (seq<Dna5>, seq<Dna5>) -> Alignment

  /** The pattern reference j is aligned with: orientations 1 and 3
      reverse-complement the pattern once per reference, so reference j sees
      it flipped an odd number of times exactly when j is even. */
  function PatternSeenBy(pattern: seq<Dna5>, j: nat, flip: bool): seq<Dna5> {
    if flip && j % 2 == 0 then ReverseComplement(pattern) else pattern
  }

  /** The alignment of every part with the pattern it sees. */
  function Aligned(parts: seq<seq<Dna5>>, pattern: seq<Dna5>, flip: bool, align: Aligner): (r: seq<Alignment>)
    ensures |r| == |parts|
  {
    if |parts| == 0 then []
    else Aligned(parts[..|parts| - 1], pattern, flip, align) +
         [align(parts[|parts| - 1], PatternSeenBy(pattern, |parts| - 1, flip))]
  }

  /** Entry j of `Aligned` aligns part j. */
  lemma {:induction false} AlignedAt(parts: seq<seq<Dna5>>, pattern: seq<Dna5>, flip: bool, align: Aligner, j: nat)
    requires j < |parts|
    ensures Aligned(parts, pattern, flip, align)[j] == align(parts[j], PatternSeenBy(pattern, j, flip))
    decreases |parts|
  {
    if j < |parts| - 1 {
      AlignedAt(parts[..|parts| - 1], pattern, flip, align, j);
    }
  }

  lemma ParityStep(j: nat)
    ensures (j + 1) % 2 == 1 <==> j % 2 == 0
  {
  }

  /** One more part appends its alignment. */
  lemma AlignedSnoc(parts: seq<seq<Dna5>>, pattern: seq<Dna5>, flip: bool, align: Aligner, j: nat)
    requires j < |parts|
    ensures Aligned(parts[..j + 1], pattern, flip, align)
         == Aligned(parts[..j], pattern, flip, align) + [align(parts[j], PatternSeenBy(pattern, j, flip))]
  {
    assert parts[..j + 1][..j] == parts[..j];
  }

  /** The per-reference loop: (if `flip`) reverse-complement the pattern in
      place, then align it. Returns the alignments, the pattern each reference
      saw and the pattern as left behind. */
  method AlignAll(parts: seq<seq<Dna5>>, pattern: seq<Dna5>, flip: bool, align: Aligner)
    returns (results: seq<Alignment>, seen: seq<seq<Dna5>>, finalPattern: seq<Dna5>)
    ensures results == Aligned(parts, pattern, flip, align)
    ensures |seen| == |parts| && forall j :: 0 <= j < |parts| ==> seen[j] == PatternSeenBy(pattern, j, flip)
    ensures finalPattern == (if flip && |parts| % 2 == 1 then ReverseComplement(pattern) else pattern)
  {
    var p := pattern;
    results, seen := [], [];
    ghost var rc := ReverseComplement(pattern);
    ReverseComplementInvolution(pattern);
    assert ReverseComplement(rc) == pattern;
    for j := 0 to |parts|
      invariant |seen| == j
      invariant results == Aligned(parts[..j], pattern, flip, align)
      invariant p == (if flip && j % 2 == 1 then rc else pattern)
      invariant forall k :: 0 <= k < j ==> seen[k] == PatternSeenBy(pattern, k, flip)
    {
      ghost var odd := j % 2 == 1;
      if flip {
        assert ReverseComplement(p) == if odd then pattern else rc;
        p := ReverseComplement(p);
      }
      assert p == PatternSeenBy(pattern, j, flip);
      ParityStep(j);
      AlignedSnoc(parts, pattern, flip, align, j);
      seen := seen + [p];
      results := results + [align(parts[j], p)];
    }
    assert parts[..|parts|] == parts;
    finalPattern := p;
  }

  function Scores(results: seq<Alignment>): (s: seq<int>)
    ensures |s| == |results| && forall j :: 0 <= j < |results| ==> s[j] == results[j].score
  {
    if |results| == 0 then [] else Scores(results[..|results| - 1]) + [results[|results| - 1].score]
  }

  // ---------------------------------------------------------------------
  // Best reference
  // ---------------------------------------------------------------------

  datatype Best = Best(maxScore: int, maxId: int)

  /** The selection as written: start from (INT_MIN, -1) and take a score
      only when strictly greater. */
  function SelectionAsWritten(scores: seq<int>): (b: Best)
    ensures -1 <= b.maxId < |scores|
    ensures b.maxId >= 0 ==> b.maxScore == scores[b.maxId] && INT32_MIN < b.maxScore
    ensures b.maxId == -1 ==> b.maxScore == INT32_MIN
  {
    if |scores| == 0 then Best(INT32_MIN, -1)
    else
      var b := SelectionAsWritten(scores[..|scores| - 1]);
      if b.maxScore < scores[|scores| - 1] then Best(scores[|scores| - 1], |scores| - 1) else b
  }

  /** With scores in `int` range the code as written yields -1 exactly when
      every score is INT_MIN (or there is none), and otherwise the first
      best reference. */
  lemma {:induction false} SelectionAsWrittenMeaning(scores: seq<int>)
    requires forall j :: 0 <= j < |scores| ==> INT32_MIN <= scores[j]
    ensures var b := SelectionAsWritten(scores);
            -1 <= b.maxId < |scores| &&
            (b.maxId == -1 <==> forall j :: 0 <= j < |scores| ==> scores[j] == INT32_MIN) &&
            (b.maxId >= 0 ==> IsFirstMax(scores, b.maxId, |scores|) && b.maxScore == scores[b.maxId]) &&
            (b.maxId == -1 ==> b.maxScore == INT32_MIN)
  {
    if |scores| > 0 {
      var init := scores[..|scores| - 1];
      SelectionAsWrittenMeaning(init);
      var b0 := SelectionAsWritten(init);
      if b0.maxId >= 0 {
        assert IsFirstMax(init, b0.maxId, |init|);
      }
    }
  }

  /** A reference whose every alignment scored INT_MIN is not chosen: the
      index -1 is then used to pick the alignment and the reference name. */
  lemma SelectionAsWrittenMissesReference()
    ensures SelectionAsWritten([INT32_MIN]).maxId == -1
  {
  }

  /** The selection as intended: the first best reference, whenever there is
      a reference at all. */
  function Selection(scores: seq<int>): (r: Option<nat>)
    ensures r.None? <==> |scores| == 0
    ensures r.Some? ==> IsFirstMax(scores, r.value, |scores|)
  {
    if |scores| == 0 then None
    else
      var b := Selection(scores[..|scores| - 1]);
      var last := |scores| - 1;
      if b.None? || scores[b.value] < scores[last] then Some(last)
      else
        assert forall k :: 0 <= k < last ==> scores[..last][k] == scores[k];
        b
  }

  /** Whenever some score exceeds INT_MIN both selections pick the same
      reference. */
  lemma SelectionAgrees(scores: seq<int>)
    requires forall j :: 0 <= j < |scores| ==> INT32_MIN <= scores[j]
    requires exists j :: 0 <= j < |scores| && scores[j] > INT32_MIN
    ensures Selection(scores) == Some(SelectionAsWritten(scores).maxId)
  {
    SelectionAsWrittenMeaning(scores);
  }

  /** The `maxScore`/`maxId` loop as written. */
  method SelectReferenceAsWritten(scores: seq<int32>) returns (maxId: int)
    ensures maxId == SelectionAsWritten(scores).maxId
  {
    var maxScore: int := INT32_MIN;
    maxId := -1;
    for j := 0 to |scores|
      invariant Best(maxScore, maxId) == SelectionAsWritten(scores[..j])
    {
      assert scores[..j + 1][..j] == scores[..j];
      if maxScore < scores[j] {
        maxScore, maxId := scores[j], j;
      }
    }
    assert scores[..|scores|] == scores;
  }

  /** The loop as intended: the first reference is always a candidate. */
  method SelectReference(scores: seq<int32>) returns (best: Option<nat>)
    ensures best == Selection(scores)
  {
    var maxScore: int := INT32_MIN;
    best := None;
    for j := 0 to |scores|
      invariant best == Selection(scores[..j])
      invariant best.Some? ==> best.value < j && maxScore == scores[best.value]
    {
      assert scores[..j + 1][..j] == scores[..j];
      if best.None? || maxScore < scores[j] {
        maxScore, best := scores[j], Some(j);
      }
    }
    assert scores[..|scores|] == scores;
  }

  // ---------------------------------------------------------------------
  // SAM line
  // ---------------------------------------------------------------------

  /** The text of POS: 2/5 of the pattern length when the pattern was
      reverse-complemented, otherwise the gap array's first entry plus one. */
  function PosText(patternLength: nat, firstGap: nat, reverseComplemented: bool): string {
    if reverseComplemented then DecimalString(2 * patternLength / 5) else DecimalString(firstGap + 1)
  }

  /** The eleven mandatory fields: QNAME, FLAG 2, RNAME, POS, MAPQ 0, CIGAR,
      RNEXT '*', PNEXT 0, TLEN 0, SEQ, QUAL '*'. */
  function SamFields(patternId: string, refId: string, a: Alignment, seqOut: seq<Dna5>, rc: bool): (f: seq<string>)
    ensures |f| == 11
  {
    [patternId, "2", refId, PosText(|seqOut|, a.firstGap, rc), "0", a.cigar, "*", "0", "0", Dna5Text(seqOut), "*"]
  }

  /** Fields separated by tabs. */
  function JoinTabs(fields: seq<string>): (r: string)
    ensures |fields| > 0 ==> |fields[0]| <= |r| && r[..|fields[0]|] == fields[0]
  {
    if |fields| == 0 then []
    else if |fields| == 1 then fields[0]
    else JoinTabs(fields[..|fields| - 1]) + "\t" + fields[|fields| - 1]
  }

  /** The line as written: when reverse-complemented nothing separates POS
      from MAPQ. */
  function SamLineAsWritten(patternId: string, refId: string, a: Alignment, seqOut: seq<Dna5>, rc: bool)
    : (line: string)
    ensures |patternId| < |line| && line[..|patternId|] == patternId && line[|line| - 1] == '\n'
  {
    var f := SamFields(patternId, refId, a, seqOut, rc);
    if rc then JoinTabs(f[..4]) + JoinTabs(f[4..]) + "\n" else JoinTabs(f) + "\n"
  }

  /** The line as intended: all eleven fields tab-separated. */
  function SamLine(patternId: string, refId: string, a: Alignment, seqOut: seq<Dna5>, rc: bool): (line: string)
    ensures |patternId| < |line| && line[..|patternId|] == patternId && line[|line| - 1] == '\n'
  {
    JoinTabs(SamFields(patternId, refId, a, seqOut, rc)) + "\n"
  }

  predicate NoTabs(fields: seq<string>) {
    forall i :: 0 <= i < |fields| ==> '\t' !in fields[i]
  }

  /** n fields without tabs are joined with n - 1 tabs. */
  lemma {:induction false} JoinTabsCount(fields: seq<string>)
    requires |fields| > 0 && NoTabs(fields)
    ensures CountOf(JoinTabs(fields), '\t') == |fields| - 1
    decreases |fields|
  {
    if |fields| == 1 {
      NoTabCount(fields[0]);
    } else {
      var init := fields[..|fields| - 1];
      assert NoTabs(init) by {
        forall i | 0 <= i < |init| ensures '\t' !in init[i] {
          assert init[i] == fields[i];
        }
      }
      JoinTabsCount(init);
      NoTabCount(fields[|fields| - 1]);
      CountOfAppend(JoinTabs(init), "\t", '\t');
      CountOfAppend(JoinTabs(init) + "\t", fields[|fields| - 1], '\t');
    }
  }

  lemma {:induction false} NoTabCount(s: string)
    requires '\t' !in s
    ensures CountOf(s, '\t') == 0
    decreases |s|
  {
    if |s| > 0 {
      assert s[..|s| - 1] + [s[|s| - 1]] == s;
      NoTabCount(s[..|s| - 1]);
    }
  }

  /** With tab-free ids and CIGAR no field holds a tab (POS is digits). */
  lemma SamFieldsNoTabs(patternId: string, refId: string, a: Alignment, seqOut: seq<Dna5>, rc: bool)
    requires '\t' !in patternId && '\t' !in refId && '\t' !in a.cigar
    ensures NoTabs(SamFields(patternId, refId, a, seqOut, rc))
  {
    var f := SamFields(patternId, refId, a, seqOut, rc);
    forall i | 0 <= i < 11 ensures '\t' !in f[i] {
      if i == 3 {
        assert forall k :: 0 <= k < |f[3]| ==> IsDigit(f[3][k]);
      }
    }
  }

  /** A line of tab-free fields ended by a newline has one tab fewer than
      fields. */
  lemma JoinedLineCount(fields: seq<string>)
    requires |fields| > 0 && NoTabs(fields)
    ensures CountOf(JoinTabs(fields) + "\n", '\t') == |fields| - 1
  {
    JoinTabsCount(fields);
    CountOfAppend(JoinTabs(fields), "\n", '\t');
  }

  /** With tab-free ids and CIGAR the intended line has ten separators; the
      reverse-complemented line as written has nine. */
  lemma SamLineSeparators(patternId: string, refId: string, a: Alignment, seqOut: seq<Dna5>)
    requires '\t' !in patternId && '\t' !in refId && '\t' !in a.cigar
    ensures CountOf(SamLine(patternId, refId, a, seqOut, true), '\t') == 10
    ensures CountOf(SamLine(patternId, refId, a, seqOut, false), '\t') == 10
    ensures CountOf(SamLineAsWritten(patternId, refId, a, seqOut, true), '\t') == 9
    ensures SamLineAsWritten(patternId, refId, a, seqOut, false) == SamLine(patternId, refId, a, seqOut, false)
  {
    var f := SamFields(patternId, refId, a, seqOut, true);
    var g := SamFields(patternId, refId, a, seqOut, false);
    SamFieldsNoTabs(patternId, refId, a, seqOut, true);
    SamFieldsNoTabs(patternId, refId, a, seqOut, false);
    JoinedLineCount(f);
    JoinedLineCount(g);
    var head, rest := f[..4], f[4..];
    assert NoTabs(head) && NoTabs(rest) by {
      forall i | 0 <= i < 4 ensures '\t' !in head[i] { assert head[i] == f[i]; }
      forall i | 0 <= i < 7 ensures '\t' !in rest[i] { assert rest[i] == f[i + 4]; }
    }
    JoinTabsCount(head);
    JoinedLineCount(rest);
    CountOfAppend(JoinTabs(head), JoinTabs(rest) + "\n", '\t');
    assert JoinTabs(head) + JoinTabs(rest) + "\n" == JoinTabs(head) + (JoinTabs(rest) + "\n");
  }

  // ---------------------------------------------------------------------
  // One pattern
  // ---------------------------------------------------------------------

  /** The shared first half of the work for one pattern: orient it, choose
      the side, and align it against every part of that side. */
  method OrientAndAlign(pattern: seq<Dna5>, p: Prepared, segs: Segments, score: Scorer, align: Aligner)
    returns (orientation: nat, parts: seq<seq<Dna5>>, flip: bool, results: seq<Alignment>, seen: seq<seq<Dna5>>)
    requires |pattern| >= 20
    ensures orientation == Orientation(OrientationScores(segs, PatternSides(pattern), score))
    ensures parts == (if orientation < 2 then p.left else p.right)
    ensures flip == (orientation == 1 || orientation == 3)
    ensures results == Aligned(parts, pattern, flip, align)
    ensures |seen| == |parts| && forall j :: 0 <= j < |parts| ==> seen[j] == PatternSeenBy(pattern, j, flip)
  {
    orientation := Orientation(OrientationScores(segs, PatternSides(pattern), score));
    parts := if orientation < 2 then p.left else p.right;
    flip := orientation == 1 || orientation == 3;
    var finalPattern;
    results, seen, finalPattern := AlignAll(parts, pattern, flip, align);
  }

  /** The work for one pattern as written: orient it, align it against
      every left part (orientations 0, 1) or right part (2, 3),
      reverse-complementing it in orientations 1 and 3, pick the reference
      with the (INT_MIN, -1) loop and write its line without the tab after
      POS in orientations 1 and 3. `assignSource` copies the pattern into the
      alignment's row, so SEQ is the pattern as the chosen reference saw
      it. `None` when the loop leaves the index at -1,
      where the code would index its alignments with -1. */
  method MapPattern(patternId: string, pattern: seq<Dna5>, refIds: seq<string>, p: Prepared, segs: Segments,
                    score: Scorer, align: Aligner) returns (line: Option<string>, orientation: nat)
    requires |pattern| >= 20
    requires |refIds| == |p.left| == |p.right|
    ensures orientation == Orientation(OrientationScores(segs, PatternSides(pattern), score))
    ensures var parts := if orientation < 2 then p.left else p.right;
            var flip := orientation == 1 || orientation == 3;
            var aligned := Aligned(parts, pattern, flip, align);
            var j := SelectionAsWritten(Scores(aligned)).maxId;
            -1 <= j < |aligned| &&
            (j == -1 <==> line.None?) &&
            (j >= 0 ==> line == Some(SamLineAsWritten(patternId, refIds[j], aligned[j],
                                                      PatternSeenBy(pattern, j, flip), flip)))
  {
    var parts, flip, results, seen;
    orientation, parts, flip, results, seen := OrientAndAlign(pattern, p, segs, score, align);
    var maxId := SelectReferenceAsWritten(Scores(results));
    SelectionAsWrittenMeaning(Scores(results));
    if maxId == -1 {
      line := None;
    } else {
      line := Some(SamLineAsWritten(patternId, refIds[maxId], results[maxId], seen[maxId], flip));
    }
  }

  /** The same work as intended: the first best reference is always chosen
      and all eleven fields are tab-separated. `None` only when there is no
      reference. */
  method MapPatternIntended(patternId: string, pattern: seq<Dna5>, refIds: seq<string>, p: Prepared,
                            segs: Segments, score: Scorer, align: Aligner)
    returns (line: Option<string>, orientation: nat)
    requires |pattern| >= 20
    requires |refIds| == |p.left| == |p.right|
    ensures orientation == Orientation(OrientationScores(segs, PatternSides(pattern), score))
    ensures var parts := if orientation < 2 then p.left else p.right;
            var flip := orientation == 1 || orientation == 3;
            var aligned := Aligned(parts, pattern, flip, align);
            match Selection(Scores(aligned))
            case None => line.None?
            case Some(j) =>
              line == Some(SamLine(patternId, refIds[j], aligned[j], PatternSeenBy(pattern, j, flip), flip))
  {
    var parts, flip, results, seen;
    orientation, parts, flip, results, seen := OrientAndAlign(pattern, p, segs, score, align);
    var best := SelectReference(Scores(results));
    if best.None? {
      line := None;
    } else {
      var j := best.value;
      assert j < |results| == |parts|;
      line := Some(SamLine(patternId, refIds[j], results[j], seen[j], flip));
    }
  }
}
