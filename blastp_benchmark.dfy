// The BLASTP benchmark generator: amino acids drawn through cumulative
// frequency thresholds, the synthetic database with its per-residue counts,
// and the construction of one read (length clamp against the reference,
// substitution count, deletion by an in-place left shift, insertion by an
// in-place right shift and refill). Every random draw is a parameter.
module BlastpBenchmark {
  import opened Common

  /** An amino acid, by its rank in the order A R N D C Q E G H I L K M F P
      S T W Y V. */
  type AminoAcid = a: nat | a < 20

  const AMINO_LETTERS: string := "ARNDCQEGHILKMFPSTWYV"

  /** Text of a residue sequence. */
  function Letters(r: seq<AminoAcid>): string
  {
    seq(|r|, i requires 0 <= i < |r| => AMINO_LETTERS[r[i]])
  }

  // ---------------------------------------------------------------------
  // Amino-acid draws
  // ---------------------------------------------------------------------

  /** Cumulative amino-acid frequencies in percent, one threshold per rank
      boundary. */
  function Thresholds(): (t: seq<real>)
    ensures |t| == 21 && t[0] == 0.0
    ensures forall i :: 0 <= i < 20 ==> t[i] < t[i + 1]
  {
    [0.0, 8.25, 13.78, 17.84, 23.29, 24.66, 28.59, 35.34, 42.41, 44.68, 50.63,
     60.29, 66.13, 68.54, 72.4, 77.11, 83.68, 89.02, 90.1, 93.02, 99.88]
  }

  lemma {:induction false} ThresholdsMonotone(i: nat, j: nat)
    requires i <= j <= 20
    ensures Thresholds()[i] <= Thresholds()[j]
    decreases j - i
  {
    if i < j {
      ThresholdsMonotone(i + 1, j);
    }
  }

  /** Thresholds are in strictly increasing order, so a smaller threshold
      has a smaller index. */
  lemma ThresholdsOrder(i: nat, j: nat)
    requires i <= 20 && j <= 20
    ensures Thresholds()[i] < Thresholds()[j] ==> i < j
  {
    if j <= i {
      ThresholdsMonotone(j, i);
    }
  }

  /** `rng` falls in the interval of amino acid `a`: from its threshold up to
      the next one, the first interval open below and the last open above. */
  predicate InBucket(rng: real, a: AminoAcid)
  {
    (a == 0 || Thresholds()[a] <= rng) && (a == 19 || rng < Thresholds()[a + 1])
  }

  /** The intervals do not overlap. */
  lemma BucketUnique(rng: real, a: AminoAcid, b: AminoAcid)
    requires InBucket(rng, a) && InBucket(rng, b)
    ensures a == b
  {
    if a > 0 && b < 19 {
      ThresholdsOrder(a, b + 1);
    }
    if b > 0 && a < 19 {
      ThresholdsOrder(b, a + 1);
    }
  }

  /** Number of thresholds among ranks 1..n that are not above `rng`. */
  function CountNotAbove(rng: real, n: nat): (c: nat)
    requires n <= 20
    ensures c <= n
  {
    if n == 0 then 0
    else CountNotAbove(rng, n - 1) + (if Thresholds()[n] <= rng then 1 else 0)
  }

  /** The amino acid a database draw `rng` stands for: how many of the
      thresholds 1..19 it has reached. */
  function AminoAcidDB(rng: real): (a: AminoAcid)
    ensures InBucket(rng, a)
  {
    CountNotAboveSplit(rng, 19);
    CountNotAbove(rng, 19)
  }

  /** The thresholds not above `rng` are exactly the first ones. */
  lemma {:induction false} CountNotAboveSplit(rng: real, n: nat)
    requires n <= 19
    ensures var c := CountNotAbove(rng, n);
            (forall k :: 1 <= k <= c ==> Thresholds()[k] <= rng) &&
            (forall k :: c < k <= n ==> rng < Thresholds()[k])
  {
    if n > 0 {
      CountNotAboveSplit(rng, n - 1);
      var c := CountNotAbove(rng, n - 1);
      if Thresholds()[n] <= rng {
        forall k | 1 <= k < n
          ensures Thresholds()[k] <= rng
        {
          ThresholdsMonotone(k, n);
        }
      }
    }
  }

  /** A database draw lands in the interval of the amino acid it stands
      for; with `BucketUnique` that interval determines it. */
  lemma AminoAcidDBBucket(rng: real)
    ensures InBucket(rng, AminoAcidDB(rng))
  {
    CountNotAboveSplit(rng, 19);
  }

  /** `getAminoAcidDB`: the first rank i in 1..19 whose threshold is above
      `rng` gives i - 1; if there is none, the last amino acid. */
  method GetAminoAcidDB(rng: real) returns (a: AminoAcid)
    ensures a == AminoAcidDB(rng)
  {
    var t := Thresholds();
    var i := 1;
    while i < 20
      invariant 1 <= i <= 20
      invariant forall k :: 1 <= k < i ==> t[k] <= rng
    {
      if rng < t[i] {
        a := i - 1;
        AminoAcidDBBucket(rng);
        BucketUnique(rng, a, AminoAcidDB(rng));
        return;
      }
      i := i + 1;
    }
    a := 19;
    AminoAcidDBBucket(rng);
    BucketUnique(rng, a, AminoAcidDB(rng));
  }

  // ---------------------------------------------------------------------
  // Database
  // ---------------------------------------------------------------------

  /** Residues of an entry, one per draw. */
  function Residues(draws: seq<real>): seq<AminoAcid>
  {
    seq(|draws|, j requires 0 <= j < |draws| => AminoAcidDB(draws[j]))
  }

  /** Entries of the database, one per draw sequence. */
  function Entries(draws: seq<seq<real>>): seq<seq<AminoAcid>>
  {
    seq(|draws|, i requires 0 <= i < |draws| => Residues(draws[i]))
  }

  /** FASTA text of entry `i`: header line with the decimal index, then the
      residues on one line. */
  function EntryText(i: nat, r: seq<AminoAcid>): string
  {
    ">" + DecimalString(i) + "\n" + Letters(r) + "\n"
  }

  function DatabaseText(entries: seq<seq<AminoAcid>>): string
  {
    if |entries| == 0 then []
    else DatabaseText(entries[..|entries| - 1]) + EntryText(|entries| - 1, entries[|entries| - 1])
  }

  function Sum(f: seq<nat>): nat
  {
    if |f| == 0 then 0 else Sum(f[..|f| - 1]) + f[|f| - 1]
  }

  /** The counter table after one more residue `a`. */
  function Increment(f: seq<nat>, a: AminoAcid): (g: seq<nat>)
    requires |f| == 20
    ensures |g| == 20 && g[a] == f[a] + 1
    ensures forall b :: 0 <= b < 20 && b != a ==> g[b] == f[b]
    ensures Sum(g) == Sum(f) + 1
  {
    SumIncrement(f, a);
    f[a := f[a] + 1]
  }

  lemma {:induction false} SumIncrement(f: seq<nat>, a: nat)
    requires a < |f|
    ensures Sum(f[a := f[a] + 1]) == Sum(f) + 1
  {
    var g := f[a := f[a] + 1];
    if a < |f| - 1 {
      SumIncrement(f[..|f| - 1], a);
      assert g[..|g| - 1] == f[..|f| - 1][a := f[a] + 1];
    } else {
      assert g[..|g| - 1] == f[..|f| - 1];
    }
  }

  /** The counter table after counting every residue of `r` in order. */
  function AddCounts(f: seq<nat>, r: seq<AminoAcid>): (g: seq<nat>)
    requires |f| == 20
    ensures |g| == 20
  {
    if |r| == 0 then f else Increment(AddCounts(f, r[..|r| - 1]), r[|r| - 1])
  }

  /** `dbFreq` after the entries: all twenty counters start at zero. */
  function Freq(entries: seq<seq<AminoAcid>>): (f: seq<nat>)
    ensures |f| == 20
  {
    if |entries| == 0 then seq(20, _ => 0)
    else AddCounts(Freq(entries[..|entries| - 1]), entries[|entries| - 1])
  }

  function TotalCount(entries: seq<seq<AminoAcid>>, a: AminoAcid): nat
  {
    if |entries| == 0 then 0
    else TotalCount(entries[..|entries| - 1], a) + CountOf(entries[|entries| - 1], a)
  }

  function TotalLength(entries: seq<seq<AminoAcid>>): nat
  {
    if |entries| == 0 then 0 else TotalLength(entries[..|entries| - 1]) + |entries[|entries| - 1]|
  }

  lemma {:induction false} AddCountsMeaning(f: seq<nat>, r: seq<AminoAcid>)
    requires |f| == 20
    ensures forall a: AminoAcid :: AddCounts(f, r)[a] == f[a] + CountOf(r, a)
    ensures Sum(AddCounts(f, r)) == Sum(f) + |r|
  {
    if |r| > 0 {
      AddCountsMeaning(f, r[..|r| - 1]);
    }
  }

  lemma SumZeros(n: nat)
    ensures Sum(seq(n, _ => 0)) == 0
  {
    if n > 0 {
      assert seq(n, _ => 0)[..n - 1] == seq(n - 1, _ => 0);
      SumZeros(n - 1);
    }
  }

  /** `dbFreq[a]` is the number of residues `a` generated, and the counters
      add up to the number of residues generated. */
  lemma {:induction false} FreqMeaning(entries: seq<seq<AminoAcid>>)
    ensures forall a: AminoAcid :: Freq(entries)[a] == TotalCount(entries, a)
    ensures Sum(Freq(entries)) == TotalLength(entries)
  {
    if |entries| == 0 {
      SumZeros(20);
    } else {
      FreqMeaning(entries[..|entries| - 1]);
      AddCountsMeaning(Freq(entries[..|entries| - 1]), entries[|entries| - 1]);
    }
  }

  lemma ResiduesSnoc(draws: seq<real>, j: nat)
    requires j < |draws|
    ensures Residues(draws[..j + 1]) == Residues(draws[..j]) + [AminoAcidDB(draws[j])]
    ensures Letters(Residues(draws[..j + 1])) == Letters(Residues(draws[..j])) + [AMINO_LETTERS[AminoAcidDB(draws[j])]]
  {
    assert Residues(draws[..j + 1]) == Residues(draws[..j]) + [AminoAcidDB(draws[j])];
  }

  lemma AddCountsSnoc(f: seq<nat>, r: seq<AminoAcid>, a: AminoAcid)
    requires |f| == 20
    ensures AddCounts(f, r + [a]) == Increment(AddCounts(f, r), a)
  {
    assert (r + [a])[..|r|] == r;
  }

  /** The residue loop of one entry: draw, append its letter, count it. */
  method AppendResidues(db: string, dbFreq: array<nat>, draws: seq<real>) returns (out: string)
    requires dbFreq.Length == 20
    modifies dbFreq
    ensures out == db + Letters(Residues(draws))
    ensures dbFreq[..] == AddCounts(old(dbFreq[..]), Residues(draws))
  {
    out := db;
    ghost var f0 := dbFreq[..];
    var j := 0;
    while j < |draws|
      invariant 0 <= j <= |draws|
      invariant out == db + Letters(Residues(draws[..j]))
      invariant dbFreq[..] == AddCounts(f0, Residues(draws[..j]))
    {
      var a := GetAminoAcidDB(draws[j]);
      ResiduesSnoc(draws, j);
      AddCountsSnoc(f0, Residues(draws[..j]), a);
      ConcatRegroup(db, Letters(Residues(draws[..j])), [AMINO_LETTERS[a]]);
      out := AppendResidue(out, dbFreq, a);
      j := j + 1;
    }
    assert draws[..|draws|] == draws;
  }

  /** One residue: its letter is appended and its counter goes up by one. */
  method AppendResidue(db: string, dbFreq: array<nat>, a: AminoAcid) returns (out: string)
    requires dbFreq.Length == 20
    modifies dbFreq
    ensures out == db + [AMINO_LETTERS[a]]
    ensures dbFreq[..] == Increment(old(dbFreq[..]), a)
  {
    out := db + [AMINO_LETTERS[a]];
    dbFreq[a] := dbFreq[a] + 1;
  }

  lemma DatabaseSnoc(draws: seq<seq<real>>, i: nat)
    requires i < |draws|
    ensures Entries(draws[..i + 1]) == Entries(draws[..i]) + [Residues(draws[i])]
    ensures DatabaseText(Entries(draws[..i + 1])) == DatabaseText(Entries(draws[..i])) + EntryText(i, Residues(draws[i]))
    ensures Freq(Entries(draws[..i + 1])) == AddCounts(Freq(Entries(draws[..i])), Residues(draws[i]))
  {
    var e := Entries(draws[..i + 1]);
    assert e == Entries(draws[..i]) + [Residues(draws[i])];
    assert e[..i] == Entries(draws[..i]);
  }

  /** One entry: header line, residue loop, closing newline. */
  method AppendEntry(db: string, dbFreq: array<nat>, i: nat, draws: seq<real>) returns (out: string)
    requires dbFreq.Length == 20
    modifies dbFreq
    ensures out == db + EntryText(i, Residues(draws))
    ensures dbFreq[..] == AddCounts(old(dbFreq[..]), Residues(draws))
  {
    var header := ">" + DecimalString(i) + "\n";
    out := AppendResidues(db + header, dbFreq, draws);
    out := out + "\n";
  }

  /** `createDatabase`: entry `i` has the residues of `draws[i]`; returns the
      database text and the per-amino-acid counters. */
  method CreateDatabase(draws: seq<seq<real>>) returns (db: string, dbFreq: array<nat>)
    ensures fresh(dbFreq) && dbFreq.Length == 20
    ensures db == DatabaseText(Entries(draws))
    ensures dbFreq[..] == Freq(Entries(draws))
  {
    db := [];
    dbFreq := new nat[20](_ => 0);
    assert dbFreq[..] == seq(20, _ => 0);
    var i := 0;
    while i < |draws|
      invariant 0 <= i <= |draws|
      invariant db == DatabaseText(Entries(draws[..i]))
      invariant dbFreq[..] == Freq(Entries(draws[..i]))
    {
      DatabaseSnoc(draws, i);
      db := AppendEntry(db, dbFreq, i, draws[i]);
      i := i + 1;
    }
    assert draws[..|draws|] == draws;
  }

  // ---------------------------------------------------------------------
  // Reads
  // ---------------------------------------------------------------------

  /** The draws of one read made before any residue is taken: its length,
      whether it gets an indel, the indel length and whether it is a
      deletion. */
  datatype ReadDraws = ReadDraws(length: u32, indelHit: bool, indelLength: nat, deletion: bool)

  /** Indel kind (0 none, 1 deletion, 2 insertion), read length and indel
      length the read is built with. */
  datatype ReadPlan = ReadPlan(indel: int, entryLength: u32, indelLength: nat)

  /** Clamp against the reference: a read at least as long as the reference
      is cut to one residue less, and the excess becomes the indel length. */
  function Clamp(p: ReadPlan, refLength: nat): (q: ReadPlan)
    ensures q.indel == p.indel
    ensures refLength >= 1 ==> q.entryLength < refLength
    ensures 1 <= refLength <= p.entryLength ==> q.entryLength == refLength - 1
    ensures refLength == 0 ==> q.entryLength == TWO_POW_32 - 1
    ensures refLength <= p.entryLength ==> q.indelLength == p.entryLength - refLength
    ensures refLength > p.entryLength ==> q == p
  {
    if refLength <= p.entryLength then ReadPlan(p.indel, Wrap32(refLength - 1), p.entryLength - refLength)
    else p
  }

  /** The start positions of a clamped read form a non-empty range
      0 .. refLength - 1 - entryLength. */
  lemma StartRangeNonEmpty(p: ReadPlan, refLength: nat)
    requires refLength >= 1
    ensures 0 <= refLength - 1 - Clamp(p, refLength).entryLength
  {
  }

  /** The plan as written: the indel kind is only assigned when an indel is
      drawn, so a read without one inherits the previous read's kind
      (`indel`). A deletion lengthens the read by the indel length first. */
  function PlanAsWritten(indel: int, d: ReadDraws, refLength: nat): (p: ReadPlan)
    ensures p.indel == if !d.indelHit then indel else if d.deletion then 1 else 2
    ensures refLength >= 1 ==> p.entryLength < refLength
  {
    var drawn :=
      if !d.indelHit then ReadPlan(indel, d.length, 0)
      else if d.deletion then ReadPlan(1, Wrap32(d.length + d.indelLength), d.indelLength)
      else ReadPlan(2, d.length, d.indelLength);
    Clamp(drawn, refLength)
  }

  /** The plan with the indel kind reset for every read. */
  function Plan(d: ReadDraws, refLength: nat): (p: ReadPlan)
    ensures p.indel == 0 <==> !d.indelHit
    ensures refLength >= 1 ==> p.entryLength < refLength
  {
    PlanAsWritten(0, d, refLength)
  }

  /** The two agree whenever the read draws an indel or the previous read
      had none; without an indel and without a clamp the indel length is 0. */
  lemma PlanAgrees(indel: int, d: ReadDraws, refLength: nat)
    ensures d.indelHit || indel == 0 ==> PlanAsWritten(indel, d, refLength) == Plan(d, refLength)
    ensures !d.indelHit && d.length < refLength ==> PlanAsWritten(indel, d, refLength).indelLength == 0
    ensures PlanAsWritten(indel, d, refLength).entryLength == Plan(d, refLength).entryLength
    ensures PlanAsWritten(indel, d, refLength).indelLength == Plan(d, refLength).indelLength
  {
  }

  /** After a read with a deletion, a read that draws no indel but is
      clamped (length 50 on a reference of 40) is planned as a deletion of
      10 residues. */
  lemma StaleIndelDeletes()
    ensures PlanAsWritten(1, ReadDraws(50, false, 0, false), 40) == ReadPlan(1, 39, 10)
    ensures Plan(ReadDraws(50, false, 0, false), 40) == ReadPlan(0, 39, 10)
  {
  }

  /** Residues of a read before indels: the reference window, with the
      substitute at every position whose error draw hit. */
  function Substituted(window: seq<AminoAcid>, hits: seq<bool>, subs: seq<AminoAcid>): seq<AminoAcid>
    requires |hits| == |window| && |subs| == |window|
  {
    seq(|window|, i requires 0 <= i < |window| => if hits[i] then subs[i] else window[i])
  }

  /** Whether a substitution at position i counts as an error: not when it
      falls inside the window a deletion removes. */
  predicate Counted(i: nat, indel: int, s: nat, l: nat)
  {
    indel != 1 || i < s || i >= s + l
  }

  /** `numErrors` over the positions of `hits`. */
  function ErrorCount(hits: seq<bool>, indel: int, s: nat, l: nat): (n: nat)
    ensures n <= CountOf(hits, true)
  {
    if |hits| == 0 then 0
    else ErrorCount(hits[..|hits| - 1], indel, s, l) +
         (if hits[|hits| - 1] && Counted(|hits| - 1, indel, s, l) then 1 else 0)
  }

  /** Without a deletion every substitution is an error. */
  lemma {:induction false} ErrorCountWithoutDeletion(hits: seq<bool>, indel: int, s: nat, l: nat)
    requires indel != 1
    ensures ErrorCount(hits, indel, s, l) == CountOf(hits, true)
  {
    if |hits| > 0 {
      ErrorCountWithoutDeletion(hits[..|hits| - 1], indel, s, l);
    }
  }

  lemma {:induction false} ErrorCountPrefix(hits: seq<bool>, s: nat, l: nat, k: nat)
    requires s + l <= k <= |hits|
    ensures ErrorCount(hits[..k], 1, s, l) == CountOf(hits[..s], true) + CountOf(hits[s + l..k], true)
    decreases k
  {
    if k == s + l {
      ErrorCountInside(hits, s, l, k);
      assert hits[s + l..k] == [];
    } else {
      ErrorCountPrefix(hits, s, l, k - 1);
      var last := if hits[k - 1] then 1 else 0;
      assert hits[..k][..k - 1] == hits[..k - 1];
      assert ErrorCount(hits[..k], 1, s, l) == ErrorCount(hits[..k - 1], 1, s, l) + last;
      var tail := hits[s + l..k - 1];
      assert hits[s + l..k] == tail + [hits[k - 1]];
      CountOfAppend(tail, [hits[k - 1]], true);
      assert CountOf([hits[k - 1]], true) == last;
    }
  }

  lemma {:induction false} ErrorCountInside(hits: seq<bool>, s: nat, l: nat, k: nat)
    requires k <= s + l && k <= |hits|
    ensures ErrorCount(hits[..k], 1, s, l) == CountOf(hits[..if k < s then k else s], true)
    decreases k
  {
    if k > 0 {
      ErrorCountInside(hits, s, l, k - 1);
      assert hits[..k][..k - 1] == hits[..k - 1];
    }
  }

  /** With a deletion, substitutions inside the deleted window are not
      counted: the errors are those before and after it. */
  lemma ErrorCountDeletion(hits: seq<bool>, s: nat, l: nat)
    requires s + l <= |hits|
    ensures ErrorCount(hits, 1, s, l) == CountOf(hits[..s], true) + CountOf(hits[s + l..], true)
  {
    ErrorCountPrefix(hits, s, l, |hits|);
    assert hits[..|hits|] == hits;
  }

  /** The substitution loop: one residue per position of the reference
      window starting at `start`, counting the errors. */
  method BuildRead(ref: seq<AminoAcid>, start: nat, hits: seq<bool>, subs: seq<AminoAcid>,
                   indel: int, s: nat, l: nat)
    returns (read: seq<AminoAcid>, numErrors: nat)
    requires start + |hits| <= |ref| && |subs| == |hits|
    ensures read == Substituted(ref[start..start + |hits|], hits, subs)
    ensures numErrors == ErrorCount(hits, indel, s, l)
  {
    read, numErrors := [], 0;
    var i := 0;
    while i < |hits|
      invariant 0 <= i <= |hits|
      invariant |read| == i
      invariant forall k :: 0 <= k < i ==> read[k] == if hits[k] then subs[k] else ref[start + k]
      invariant numErrors == ErrorCount(hits[..i], indel, s, l)
    {
      assert hits[..i + 1][..i] == hits[..i];
      if hits[i] {
        read := read + [subs[i]];
        if Counted(i, indel, s, l) {
          numErrors := numErrors + 1;
        }
      } else {
        read := read + [ref[start + i]];
      }
      i := i + 1;
    }
    assert hits[..|hits|] == hits;
  }

  /** Residues after a deletion of [s, s + l). */
  function Deleted(r: seq<AminoAcid>, s: nat, l: nat): seq<AminoAcid>
    requires s + l <= |r|
  {
    r[..s] + r[s + l..]
  }

  /** Residues after an insertion of `fill` at s: the tail moves right and
      its last l residues are dropped. */
  function Inserted(r: seq<AminoAcid>, s: nat, fill: seq<AminoAcid>): seq<AminoAcid>
    requires s + |fill| <= |r|
  {
    r[..s] + fill + r[s..|r| - |fill|]
  }

  /** What the edits keep: the prefix before the window, the length (minus
      l for a deletion), the tail in order; an empty window changes nothing. */
  lemma EditShape(r: seq<AminoAcid>, s: nat, fill: seq<AminoAcid>)
    requires s + |fill| <= |r|
    ensures var l := |fill|;
            |Deleted(r, s, l)| == |r| - l && Deleted(r, s, l)[..s] == r[..s] &&
            (forall k :: s <= k < |r| - l ==> Deleted(r, s, l)[k] == r[k + l]) &&
            |Inserted(r, s, fill)| == |r| && Inserted(r, s, fill)[..s] == r[..s] &&
            Inserted(r, s, fill)[s..s + l] == fill &&
            (forall k :: s + l <= k < |r| ==> Inserted(r, s, fill)[k] == r[k - l])
    ensures |fill| == 0 ==> Deleted(r, s, 0) == r && Inserted(r, s, fill) == r
  {
    var l := |fill|;
    assert Inserted(r, s, fill)[s..s + l] == fill;
  }

  /** Deletion by left shift of the tail over the window, then `resize`; the
      new length is returned and the read is `read[..newLength]`. */
  method DeleteWindow(read: array<AminoAcid>, s: nat, l: nat) returns (newLength: nat)
    requires s + l <= read.Length
    modifies read
    ensures newLength == read.Length - l
    ensures read[..newLength] == Deleted(old(read[..]), s, l)
  {
    var i := s + l;
    while i < read.Length
      invariant s + l <= i <= read.Length
      invariant forall k :: 0 <= k < s ==> read[k] == old(read[k])
      invariant forall k :: s <= k < i - l ==> read[k] == old(read[k + l])
      invariant forall k :: i <= k < read.Length ==> read[k] == old(read[k])
    {
      assert read[i] == old(read[(i - l) + l]);
      read[i - l] := read[i];
      i := i + 1;
    }
    newLength := read.Length - l;
  }

  /** The right shift of the insertion: from the back, every element at
      or after s + l takes the one l places before it. The mixed
      signed/unsigned loop bound only stops when s + l is at least 1. */
  method ShiftRight(read: array<AminoAcid>, s: nat, l: nat)
    requires 1 <= s + l <= read.Length
    modifies read
    ensures forall k :: 0 <= k < s + l ==> read[k] == old(read[k])
    ensures forall k :: s + l <= k < read.Length ==> read[k] == old(read[k - l])
  {
    var i: int := read.Length - 1;
    while i >= s + l
      invariant s + l - 1 <= i <= read.Length - 1
      invariant forall k :: 0 <= k <= i ==> read[k] == old(read[k])
      invariant forall k :: i < k < read.Length ==> read[k] == old(read[k - l])
    {
      read[i] := read[i - l];
      i := i - 1;
    }
  }

  /** The refill of the insertion: the window [s, s + l) gets database
      draws, everything else is unchanged. */
  method Refill(read: array<AminoAcid>, s: nat, draws: seq<real>)
    requires s + |draws| <= read.Length
    modifies read
    ensures read[..] == read[..s] + Residues(draws) + old(read[s + |draws|..])
    ensures read[..s] == old(read[..s])
  {
    var j := s;
    while j < s + |draws|
      invariant s <= j <= s + |draws|
      invariant forall k :: 0 <= k < s ==> read[k] == old(read[k])
      invariant forall k :: s <= k < j ==> read[k] == AminoAcidDB(draws[k - s])
      invariant forall k :: s + |draws| <= k < read.Length ==> read[k] == old(read[k])
    {
      var a := GetAminoAcidDB(draws[j - s]);
      read[j] := a;
      j := j + 1;
    }
    RefilledContents(read[..], old(read[..]), s, draws);
  }

  /** Element by element, the refilled read is the prefix, the draws' residues
      and the old tail. */
  lemma RefilledContents(now: seq<AminoAcid>, before: seq<AminoAcid>, s: nat, draws: seq<real>)
    requires |now| == |before| && s + |draws| <= |now|
    requires forall k :: 0 <= k < s ==> now[k] == before[k]
    requires forall k :: s <= k < s + |draws| ==> now[k] == AminoAcidDB(draws[k - s])
    requires forall k :: s + |draws| <= k < |now| ==> now[k] == before[k]
    ensures now == now[..s] + Residues(draws) + before[s + |draws|..]
    ensures now[..s] == before[..s]
  {
  }

  /** Insertion: right shift of the tail, then refill of the window. */
  method InsertWindow(read: array<AminoAcid>, s: nat, l: nat, draws: seq<real>)
    requires 1 <= s + l <= read.Length && |draws| == l
    modifies read
    ensures read[..] == Inserted(old(read[..]), s, Residues(draws))
  {
    ghost var r0 := read[..];
    ShiftRight(read, s, l);
    assert read[..s] == r0[..s];
    assert read[s + l..] == r0[s..read.Length - l];
    Refill(read, s, draws);
  }

  /** A read after its indel edit. */
  function EditedRead(p: ReadPlan, r: seq<AminoAcid>, s: nat, fill: seq<real>): seq<AminoAcid>
    requires p.indel == 1 ==> s + p.indelLength <= |r|
    requires p.indel == 2 ==> s + |fill| <= |r|
  {
    if p.indel == 1 then Deleted(r, s, p.indelLength)
    else if p.indel == 2 then Inserted(r, s, Residues(fill))
    else r
  }

  /** The indel edit of one read, done in place on a buffer holding it. */
  method EditRead(p: ReadPlan, residues: seq<AminoAcid>, s: nat, fill: seq<real>) returns (read: seq<AminoAcid>)
    requires p.indel == 1 ==> s + p.indelLength <= |residues|
    requires p.indel == 2 ==> 1 <= s + p.indelLength <= |residues| && |fill| == p.indelLength
    ensures read == EditedRead(p, residues, s, fill)
  {
    if p.indel == 1 || p.indel == 2 {
      var a := new AminoAcid[|residues|](k requires 0 <= k < |residues| => residues[k]);
      assert a[..] == residues;
      if p.indel == 1 {
        var n := DeleteWindow(a, s, p.indelLength);
        read := a[..n];
      } else {
        InsertWindow(a, s, p.indelLength, fill);
        read := a[..];
      }
    } else {
      read := residues;
    }
  }

  /** A read following a given plan: substitutions, then the indel edit. */
  method PlannedRead(plan: ReadPlan, ref: seq<AminoAcid>, start: nat, indelStart: nat,
                     hits: seq<bool>, subs: seq<AminoAcid>, fill: seq<real>)
    returns (read: seq<AminoAcid>, numErrors: nat)
    requires start + plan.entryLength <= |ref| && |hits| == plan.entryLength && |subs| == plan.entryLength
    requires plan.indel == 1 ==> indelStart + plan.indelLength <= plan.entryLength
    requires plan.indel == 2 ==> 1 <= indelStart + plan.indelLength <= plan.entryLength && |fill| == plan.indelLength
    ensures numErrors == ErrorCount(hits, plan.indel, indelStart, plan.indelLength)
    ensures read == EditedRead(plan, Substituted(ref[start..start + plan.entryLength], hits, subs), indelStart, fill)
  {
    var residues;
    residues, numErrors := BuildRead(ref, start, hits, subs, plan.indel, indelStart, plan.indelLength);
    assert |residues| == plan.entryLength;
    read := EditRead(plan, residues, indelStart, fill);
  }

  /** One read of `createReads`: the plan (the indel kind carried over from
      the previous read), the substitution loop over the reference window
      at `start`, then the indel edit in place. The returned plan's `indel`
      is what the next read inherits. */
  method CreateRead(indel: int, d: ReadDraws, ref: seq<AminoAcid>, start: nat, indelStart: nat,
                    hits: seq<bool>, subs: seq<AminoAcid>, fill: seq<real>)
    returns (plan: ReadPlan, read: seq<AminoAcid>, numErrors: nat)
    requires var p := PlanAsWritten(indel, d, |ref|);
             start + p.entryLength <= |ref| && |hits| == p.entryLength && |subs| == p.entryLength &&
             (p.indel == 1 ==> indelStart + p.indelLength <= p.entryLength) &&
             (p.indel == 2 ==> 1 <= indelStart + p.indelLength <= p.entryLength && |fill| == p.indelLength)
    ensures plan == PlanAsWritten(indel, d, |ref|)
    ensures numErrors == ErrorCount(hits, plan.indel, indelStart, plan.indelLength)
    ensures read == EditedRead(plan, Substituted(ref[start..start + plan.entryLength], hits, subs), indelStart, fill)
  {
    plan := PlanAsWritten(indel, d, |ref|);
    read, numErrors := PlannedRead(plan, ref, start, indelStart, hits, subs, fill);
  }
}
