// The BCF2 writer of the VCF I/O module (section 6 of the VCF v4.2
// specification): the binary header (magic, 32-bit text length, text with
// `IDX=` annotations drawn from two dictionaries), the helpers that extract
// a dictionary id and count the entries of a field, and the packed integer
// fields at the start of a record.
//
// The output stream is a sequence of `char`s; raw bytes are the characters
// 0..255. `appendRawPod` of a 32-bit value is modelled little-endian, the
// byte order BCF2 prescribes.
module WriteBcf {
  import opened Common

  // ---------------------------------------------------------------------
  // Small sequence helpers
  // ---------------------------------------------------------------------

  /** Index of the first `x` in `s`. */
  function IndexOf<T(==)>(s: seq<T>, x: T): (r: Option<nat>)
    ensures r.None? <==> x !in s
    ensures r.Some? ==> r.value < |s| && s[r.value] == x && x !in s[..r.value]
  {
    if |s| == 0 then None
    else if s[0] == x then Some(0)
    else match IndexOf(s[1..], x)
      case None => None
      case Some(i) =>
        assert s[..i + 1] == [s[0]] + s[1..][..i];
        Some(i + 1)
  }

  /** `back(s) = c`: replace the last character. */
  function ReplaceLast(s: string, c: char): (r: string)
    requires |s| > 0
    ensures |r| == |s| && r[..|s| - 1] == s[..|s| - 1] && r[|s| - 1] == c
  {
    s[..|s| - 1] + [c]
  }

  lemma ReplaceLastAppend(prev: string, s: string, c: char)
    requires |s| > 0
    ensures ReplaceLast(prev + s, c) == prev + ReplaceLast(s, c)
  {
    assert (prev + s)[..|prev + s| - 1] == prev + s[..|s| - 1];
  }

  // ---------------------------------------------------------------------
  // Dictionary id of a header value
  // ---------------------------------------------------------------------

  /** The scan for the id needs a ',' somewhere after the first '=': it has no
      end-of-input check. */
  predicate IdTerminated(v: string)
  {
    match IndexOf(v, '=')
    case None => true
    case Some(e) => ',' in v[e + 1..]
  }

  /** The characters after the first '=' up to the next ','; empty when the
      value has no '='. */
  function DictionaryId(v: string): (id: string)
    requires IdTerminated(v)
    ensures ',' !in id
    ensures '=' !in v ==> id == []
    ensures '=' in v ==>
              var e := IndexOf(v, '=').value;
              e + 1 + |id| < |v| && v[e + 1..e + 1 + |id|] == id && v[e + 1 + |id|] == ','
  {
    match IndexOf(v, '=')
    case None => []
    case Some(e) =>
      var rest := v[e + 1..];
      var c := IndexOf(rest, ',').value;
      assert v[e + 1..e + 1 + c] == rest[..c];
      rest[..c]
  }

  /** The inner copy loop: characters from `from` up to the ',' that comes
      `c` characters later. */
  method CopyUntilComma(v: string, from: nat, ghost c: nat) returns (target: string)
    requires from + c < |v| && v[from + c] == ',' && ',' !in v[from..from + c]
    ensures target == v[from..from + c]
  {
    forall k | from <= k < from + c
      ensures v[k] != ','
    {
      assert v[k] == v[from..from + c][k - from];
    }
    target := [];
    var it := from;
    while v[it] != ','
      invariant from <= it <= from + c
      invariant target == v[from..it]
      decreases from + c - it
    {
      assert v[from..it + 1] == v[from..it] + [v[it]];
      target := target + [v[it]];
      it := it + 1;
    }
  }

  /** The copy that starts once the first '=' is found at `e`. */
  method IdAfter(v: string, e: nat) returns (target: string)
    requires IdTerminated(v) && IndexOf(v, '=') == Some(e)
    ensures target == DictionaryId(v)
  {
    ghost var c := IndexOf(v[e + 1..], ',').value;
    assert v[e + 1..][..c] == v[e + 1..e + 1 + c];
    target := CopyUntilComma(v, e + 1, c);
  }

  /** `_getBcfDictionaryId`: clear the target, find the first '=', then copy
      characters until a ','. */
  method GetBcfDictionaryId(v: string) returns (target: string)
    requires IdTerminated(v)
    ensures target == DictionaryId(v)
  {
    target := [];
    var it := 0;
    while it < |v|
      invariant 0 <= it <= |v|
      invariant '=' !in v[..it]
    {
      if v[it] == '=' {
        assert IndexOf(v, '=') == Some(it);
        target := IdAfter(v, it);
        return;
      }
      assert v[..it + 1] == v[..it] + [v[it]];
      it := it + 1;
    }
    assert v[..it] == v;
  }

  // ---------------------------------------------------------------------
  // Entry count of a field
  // ---------------------------------------------------------------------

  predicate IsSeparator(c: char) {
    c == ',' || c == ';' || c == ':'
  }

  function SeparatorCount(s: string): (k: nat)
    ensures k <= |s|
  {
    if |s| == 0 then 0 else SeparatorCount(s[..|s| - 1]) + (if IsSeparator(s[|s| - 1]) then 1 else 0)
  }

  lemma {:induction false} SeparatorCountAppend(a: string, b: string)
    ensures SeparatorCount(a + b) == SeparatorCount(a) + SeparatorCount(b)
    decreases |b|
  {
    if |b| == 0 {
      assert a + b == a;
    } else {
      assert (a + b)[..|a + b| - 1] == a + b[..|b| - 1];
      SeparatorCountAppend(a, b[..|b| - 1]);
    }
  }

  /** Number of entries of a ',', ';' or ':' separated field: one more than
      its separators, unless the field ends with one. */
  function EntryCount(s: string): (n: nat)
    requires |s| > 0
    ensures 1 <= n <= |s|
  {
    if IsSeparator(s[|s| - 1]) then SeparatorCount(s) else SeparatorCount(s) + 1
  }

  /** Joining two fields with a separator adds their entry counts. */
  lemma EntryCountJoin(a: string, sep: char, b: string)
    requires |a| > 0 && |b| > 0 && IsSeparator(sep) && !IsSeparator(a[|a| - 1])
    ensures EntryCount(a + [sep] + b) == EntryCount(a) + EntryCount(b)
  {
    SeparatorCountAppend(a + [sep], b);
    SeparatorCountAppend(a, [sep]);
    assert (a + [sep] + b)[|a + [sep] + b| - 1] == b[|b| - 1];
  }

  /** `_countEntriesAlt`. The field must be non-empty (its last character is
      read). */
  method CountEntriesAlt(s: string) returns (n: u32)
    requires 0 < |s| < TWO_POW_32
    ensures n == EntryCount(s)
  {
    var counter: u32 := 0;
    var i := 0;
    while i < |s|
      invariant 0 <= i <= |s|
      invariant counter == SeparatorCount(s[..i])
    {
      assert s[..i + 1][..i] == s[..i];
      if IsSeparator(s[i]) {
        counter := counter + 1;
      }
      i := i + 1;
    }
    assert s[..i] == s;
    if IsSeparator(s[|s| - 1]) {
      return counter;
    }
    return counter + 1;
  }

  // ---------------------------------------------------------------------
  // Raw 32-bit values
  // ---------------------------------------------------------------------

  /** `appendRawPod` of a 32-bit value: four bytes, least significant first. */
  function LittleEndian32(x: u32): (b: seq<char>)
    ensures |b| == 4 && forall i :: 0 <= i < 4 ==> b[i] as int < 256
  {
    [(x % 256) as char, (x / 256 % 256) as char, (x / 65536 % 256) as char, (x / 16777216) as char]
  }

  function DecodeLittleEndian32(b: seq<char>): int
    requires |b| == 4
  {
    b[0] as int + 256 * (b[1] as int + 256 * (b[2] as int + 256 * b[3] as int))
  }

  /** Reading the four bytes back gives the value. */
  lemma LittleEndianRoundTrip(x: u32)
    ensures DecodeLittleEndian32(LittleEndian32(x)) == x
  {
    var b := LittleEndian32(x);
    assert x / 256 == x / 256 % 256 + 256 * (x / 65536);
    assert x / 65536 == x / 65536 % 256 + 256 * (x / 16777216);
  }

  // ---------------------------------------------------------------------
  // The header text
  // ---------------------------------------------------------------------

  datatype HeaderRecord = HeaderRecord(key: string, value: string)

  /** The keys whose IDs go into the shared (non-contig) dictionary. */
  predicate IsRestKey(key: string) {
    key == "INFO" || key == "FORMAT" || key == "FILTER"
  }

  predicate NeedsId(r: HeaderRecord) {
    r.key == "contig" || IsRestKey(r.key)
  }

  /** Writer state threaded through the records: the next contig number and
      the two name stores. */
  datatype Dicts = Dicts(contigId: nat, contigs: seq<string>, rest: seq<string>)

  /** The `##key=value` text of a record before any annotation. */
  function BaseLine(r: HeaderRecord): (s: string)
    ensures |s| > 0
  {
    "##" + r.key + "=" + r.value
  }

  /** ",IDX=n>" in place of the last character of `base`. */
  function Annotated(base: string, n: nat): string
    requires |base| > 0
  {
    ReplaceLast(base, ',') + "IDX=" + DecimalString(Wrap32(n)) + ">"
  }

  /** Annotating the last line of a text annotates that line alone. */
  lemma AnnotateAppend(prev: string, base: string, n: nat)
    requires |base| > 0
    ensures ReplaceLast(prev + base, ',') + "IDX=" + DecimalString(Wrap32(n)) + ">" == prev + Annotated(base, n)
  {
    ReplaceLastAppend(prev, base, ',');
    var tail := "IDX=" + DecimalString(Wrap32(n)) + ">";
    assert ReplaceLast(prev + base, ',') + "IDX=" + DecimalString(Wrap32(n)) + ">"
        == (prev + ReplaceLast(base, ',')) + tail;
    ConcatRegroup(prev, ReplaceLast(base, ','), tail);
  }

  /** The text one record contributes. */
  function LineText(r: HeaderRecord, d: Dicts): string
    requires NeedsId(r) ==> IdTerminated(r.value)
  {
    if r.key == "contig" then Annotated(BaseLine(r), d.contigId) + "\n"
    else if IsRestKey(r.key) && DictionaryId(r.value) !in d.rest then Annotated(BaseLine(r), |d.rest|) + "\n"
    else BaseLine(r) + "\n"
  }

  /** The writer state after one record. */
  function NextDicts(r: HeaderRecord, d: Dicts): Dicts
    requires NeedsId(r) ==> IdTerminated(r.value)
  {
    if r.key == "contig" then Dicts(d.contigId + 1, d.contigs + [DictionaryId(r.value)], d.rest)
    else if IsRestKey(r.key) && DictionaryId(r.value) !in d.rest then d.(rest := d.rest + [DictionaryId(r.value)])
    else d
  }

  predicate RecordsWellFormed(records: seq<HeaderRecord>) {
    forall i :: 0 <= i < |records| ==> (NeedsId(records[i]) ==> IdTerminated(records[i].value))
  }

  lemma WellFormedPrefix(records: seq<HeaderRecord>, n: nat)
    requires RecordsWellFormed(records) && n <= |records|
    ensures RecordsWellFormed(records[..n])
  {
    forall i | 0 <= i < n ensures NeedsId(records[..n][i]) ==> IdTerminated(records[..n][i].value) {
      assert records[..n][i] == records[i];
    }
  }

  datatype Body = Body(text: string, dicts: Dicts)

  /** The `##` lines of all records and the final writer state. */
  function HeaderLines(records: seq<HeaderRecord>, d: Dicts): Body
    requires RecordsWellFormed(records)
  {
    if |records| == 0 then Body([], d)
    else
      var init := HeaderLines(records[..|records| - 1], d);
      var r := records[|records| - 1];
      Body(init.text + LineText(r, init.dicts), NextDicts(r, init.dicts))
  }

  const ColumnLine: string := "#CHROM\tPOS\tID\tREF\tALT\tQUAL\tFILTER\tINFO\tFORMAT"

  /** "\t" + name for every sample. */
  function SampleColumns(names: seq<string>): string
  {
    if |names| == 0 then [] else SampleColumns(names[..|names| - 1]) + "\t" + names[|names| - 1]
  }

  /** The complete header text, terminated by "\n" and a NUL. */
  function HeaderText(records: seq<HeaderRecord>, sampleNames: seq<string>, d: Dicts): (t: string)
    requires RecordsWellFormed(records)
  {
    HeaderLines(records, d).text + ColumnLine + SampleColumns(sampleNames) + "\n\0"
  }

  const Magic: string := ['B', 'C', 'F', 2 as char, 2 as char]

  /** The header as written to the stream: magic, text length, text. */
  function HeaderBytes(records: seq<HeaderRecord>, sampleNames: seq<string>, d: Dicts): seq<char>
    requires RecordsWellFormed(records)
  {
    var t := HeaderText(records, sampleNames, d);
    Magic + LittleEndian32(Wrap32(|t|)) + t
  }

  // ---------------------------------------------------------------------
  // Properties of the header
  // ---------------------------------------------------------------------

  /** The stream starts with "BCF\2\2", then the length of the text including
      its trailing NUL, then the text, which ends with "\n\0". */
  lemma HeaderFraming(records: seq<HeaderRecord>, sampleNames: seq<string>, d: Dicts)
    requires RecordsWellFormed(records)
    requires |HeaderText(records, sampleNames, d)| < TWO_POW_32
    ensures var b := HeaderBytes(records, sampleNames, d);
            var t := HeaderText(records, sampleNames, d);
            b[..5] == Magic &&
            DecodeLittleEndian32(b[5..9]) == |b| - 9 &&
            b[9..] == t &&
            t[|t| - 2..] == "\n\0"
  {
    var t := HeaderText(records, sampleNames, d);
    var b := HeaderBytes(records, sampleNames, d);
    LittleEndianRoundTrip(|t|);
    assert b[5..9] == LittleEndian32(|t|);
  }

  /** A record's line with its closing '>' replaced by ",IDX=n>". */
  function AnnotatedLine(r: HeaderRecord, n: nat): string
  {
    var base := BaseLine(r);
    base[..|base| - 1] + ",IDX=" + DecimalString(Wrap32(n)) + ">\n"
  }

  /** Every line starts with "##key=", keeps the value up to its last
      character, and ends with a newline; a record without an id, or a
      repeated INFO/FORMAT/FILTER id, is copied verbatim. */
  lemma LineShape(r: HeaderRecord, d: Dicts)
    requires NeedsId(r) ==> IdTerminated(r.value)
    ensures var line := LineText(r, d);
            var base := BaseLine(r);
            var head := "##" + r.key + "=";
            |base| <= |line| &&
            line[..|base| - 1] == base[..|base| - 1] &&
            (|r.value| > 0 || !NeedsId(r) ==> line[..|head|] == head) &&
            line[|line| - 1] == '\n'
    ensures !NeedsId(r) || (IsRestKey(r.key) && DictionaryId(r.value) in d.rest) ==>
              LineText(r, d) == BaseLine(r) + "\n"
    ensures r.key == "contig" ==>
              LineText(r, d) == AnnotatedLine(r, d.contigId) &&
              NextDicts(r, d).contigId == d.contigId + 1
    ensures IsRestKey(r.key) && DictionaryId(r.value) !in d.rest ==>
              LineText(r, d) == AnnotatedLine(r, |d.rest|) &&
              |NextDicts(r, d).rest| == |d.rest| + 1 && NextDicts(r, d).rest[|d.rest|] == DictionaryId(r.value)
  {
    var base := BaseLine(r);
    var head := "##" + r.key + "=";
    var line := LineText(r, d);
    assert base[..|head|] == head;
    var prefix := if line == base + "\n" then base else ReplaceLast(base, ',');
    assert line[..|base|] == prefix;
    assert prefix[..|base| - 1] == base[..|base| - 1];
    if |r.value| > 0 || !NeedsId(r) {
      assert prefix[..|head|] == base[..|head|];
    }
    if r.key == "contig" {
      ContigLine(r, d);
    } else if IsRestKey(r.key) && DictionaryId(r.value) !in d.rest {
      AnnotatedText(r, |d.rest|);
    }
  }

  lemma AnnotatedText(r: HeaderRecord, n: nat)
    ensures Annotated(BaseLine(r), n) + "\n" == AnnotatedLine(r, n)
  {
    var base := BaseLine(r);
    assert ReplaceLast(base, ',') == base[..|base| - 1] + [','];
  }

  /** A contig line is annotated with the writer's contig counter. */
  lemma ContigLine(r: HeaderRecord, d: Dicts)
    requires r.key == "contig" && IdTerminated(r.value)
    ensures LineText(r, d) == AnnotatedLine(r, d.contigId)
  {
    AnnotatedText(r, d.contigId);
  }

  /** The IDs of the contig records, in order. */
  function ContigIds(records: seq<HeaderRecord>): seq<string>
    requires RecordsWellFormed(records)
  {
    if |records| == 0 then []
    else
      var r := records[|records| - 1];
      ContigIds(records[..|records| - 1]) + (if r.key == "contig" then [DictionaryId(r.value)] else [])
  }

  /** Contigs are numbered in order of appearance and every contig record adds
      one name (repeats included) to the contig store; the shared store only
      grows. */
  lemma {:induction false} ContigNumbering(records: seq<HeaderRecord>, d: Dicts)
    requires RecordsWellFormed(records)
    ensures var e := HeaderLines(records, d).dicts;
            e.contigs == d.contigs + ContigIds(records) &&
            e.contigId == d.contigId + |ContigIds(records)| &&
            d.rest <= e.rest
  {
    if |records| > 0 {
      var init := records[..|records| - 1];
      WellFormedPrefix(records, |records| - 1);
      ContigNumbering(init, d);
      var e0 := HeaderLines(init, d).dicts;
      var e := HeaderLines(records, d).dicts;
      assert e0.rest <= e.rest;
    }
  }

  predicate Distinct(s: seq<string>) {
    forall i, j :: 0 <= i < j < |s| ==> s[i] != s[j]
  }

  /** One record keeps the shared dictionary free of repeats, only extends
      it, and leaves an INFO/FORMAT/FILTER record's id in it. */
  lemma NextDictsRest(r: HeaderRecord, d: Dicts)
    requires NeedsId(r) ==> IdTerminated(r.value)
    ensures Distinct(d.rest) ==> Distinct(NextDicts(r, d).rest)
    ensures d.rest <= NextDicts(r, d).rest
    ensures forall x :: x in d.rest ==> x in NextDicts(r, d).rest
    ensures IsRestKey(r.key) ==> DictionaryId(r.value) in NextDicts(r, d).rest
  {
    if r.key != "contig" && IsRestKey(r.key) && DictionaryId(r.value) !in d.rest {
      var n := NextDicts(r, d).rest;
      assert n == d.rest + [DictionaryId(r.value)];
      if Distinct(d.rest) {
        forall i, j | 0 <= i < j < |n| ensures n[i] != n[j] {
          if j == |d.rest| {
            assert n[i] == d.rest[i];
          }
        }
      }
    }
  }

  /** The shared dictionary never holds an id twice. */
  lemma {:induction false} RestDistinct(records: seq<HeaderRecord>, d: Dicts)
    requires RecordsWellFormed(records)
    requires Distinct(d.rest)
    ensures Distinct(HeaderLines(records, d).dicts.rest)
  {
    if |records| > 0 {
      var init := records[..|records| - 1];
      WellFormedPrefix(records, |records| - 1);
      RestDistinct(init, d);
      NextDictsRest(records[|records| - 1], HeaderLines(init, d).dicts);
    }
  }

  /** After the header every INFO/FORMAT/FILTER id is in the shared
      dictionary. */
  lemma {:induction false} RestComplete(records: seq<HeaderRecord>, d: Dicts)
    requires RecordsWellFormed(records)
    ensures forall i :: 0 <= i < |records| && IsRestKey(records[i].key) ==>
              DictionaryId(records[i].value) in HeaderLines(records, d).dicts.rest
  {
    if |records| > 0 {
      var last := |records| - 1;
      var init := records[..last];
      var r := records[last];
      WellFormedPrefix(records, last);
      RestComplete(init, d);
      var e0 := HeaderLines(init, d).dicts;
      var e := HeaderLines(records, d).dicts;
      assert e == NextDicts(r, e0);
      NextDictsRest(r, e0);
      forall i | 0 <= i < |records| && IsRestKey(records[i].key)
        ensures DictionaryId(records[i].value) in e.rest
      {
        if i < last {
          assert init[i] == records[i];
          assert DictionaryId(records[i].value) in e0.rest;
        } else {
          assert i == last;
        }
      }
    }
  }
  /** The shared dictionary at any point of the header is a prefix of the
      final one. */
  lemma {:induction false} RestPrefixGrows(records: seq<HeaderRecord>, d: Dicts, n: nat)
    requires RecordsWellFormed(records) && n <= |records|
    ensures RecordsWellFormed(records[..n])
    ensures HeaderLines(records[..n], d).dicts.rest <= HeaderLines(records, d).dicts.rest
    decreases |records| - n
  {
    WellFormedPrefix(records, n);
    if n < |records| {
      var init := records[..|records| - 1];
      WellFormedPrefix(records, |records| - 1);
      assert init[..n] == records[..n];
      RestPrefixGrows(init, d, n);
      NextDictsRest(records[|records| - 1], HeaderLines(init, d).dicts);
    } else {
      assert records[..n] == records;
    }
  }

  /** The line of the i-th record, written from the state the earlier
      records leave: a contig line carries IDX = the number of contigs
      before it (counting from `d.contigId`). */
  lemma ContigLineNumber(records: seq<HeaderRecord>, d: Dicts, i: nat)
    requires RecordsWellFormed(records) && i < |records| && records[i].key == "contig"
    ensures RecordsWellFormed(records[..i])
    ensures LineText(records[i], HeaderLines(records[..i], d).dicts)
              == AnnotatedLine(records[i], d.contigId + |ContigIds(records[..i])|)
  {
    var before := records[..i];
    WellFormedPrefix(records, i);
    var e := HeaderLines(before, d).dicts;
    ContigNumbering(before, d);
    assert e.contigId == d.contigId + |ContigIds(before)|;
    ContigLine(records[i], e);
  }

  /** A new INFO/FORMAT/FILTER id is annotated with IDX = n, and n is the
      position of that id in the final shared dictionary. */
  lemma RestLineNumber(records: seq<HeaderRecord>, d: Dicts, i: nat)
    requires RecordsWellFormed(records) && i < |records| && IsRestKey(records[i].key)
    ensures var e := HeaderLines(records[..i], d).dicts;
            DictionaryId(records[i].value) !in e.rest ==>
              LineText(records[i], e) == AnnotatedLine(records[i], |e.rest|) &&
              |e.rest| < |HeaderLines(records, d).dicts.rest| &&
              HeaderLines(records, d).dicts.rest[|e.rest|] == DictionaryId(records[i].value)
  {
    WellFormedPrefix(records, i);
    var e := HeaderLines(records[..i], d).dicts;
    var r := records[i];
    if DictionaryId(r.value) !in e.rest {
      LineShape(r, e);
      HeaderLinesStep(records, d, i);
      RestPrefixGrows(records, d, i + 1);
      var next := HeaderLines(records[..i + 1], d).dicts.rest;
      assert next[|e.rest|] == DictionaryId(r.value);
    }
  }

  /** One more record advances the writer state by `NextDicts`. */
  lemma HeaderLinesStep(records: seq<HeaderRecord>, d: Dicts, i: nat)
    requires RecordsWellFormed(records) && i < |records|
    ensures RecordsWellFormed(records[..i]) && RecordsWellFormed(records[..i + 1])
    ensures HeaderLines(records[..i + 1], d).dicts == NextDicts(records[i], HeaderLines(records[..i], d).dicts)
  {
    WellFormedPrefix(records, i);
    WellFormedPrefix(records, i + 1);
    assert records[..i + 1][..i] == records[..i];
  }


  // ---------------------------------------------------------------------
  // Packed record fields
  // ---------------------------------------------------------------------

  function Pow2(k: nat): (p: nat)
    ensures p >= 1
  {
    if k == 0 then 1 else 2 * Pow2(k - 1)
  }

  lemma Pow2Values()
    ensures Pow2(16) == 0x1_0000 && Pow2(24) == 0x100_0000
  {
    assert Pow2(1) == 2;
    assert Pow2(2) == 4;
    assert Pow2(3) == 8;
    assert Pow2(4) == 16;
    assert Pow2(5) == 32;
    assert Pow2(6) == 64;
    assert Pow2(7) == 128;
    assert Pow2(8) == 256;
    assert Pow2(9) == 512;
    assert Pow2(10) == 1024;
    assert Pow2(11) == 2048;
    assert Pow2(12) == 4096;
    assert Pow2(13) == 8192;
    assert Pow2(14) == 16384;
    assert Pow2(15) == 32768;
    assert Pow2(16) == 65536;
    assert Pow2(17) == 131072;
    assert Pow2(18) == 262144;
    assert Pow2(19) == 524288;
    assert Pow2(20) == 1048576;
    assert Pow2(21) == 2097152;
    assert Pow2(22) == 4194304;
    assert Pow2(23) == 8388608;
    assert Pow2(24) == 16777216;
  }

  /** Bitwise or of two unsigned numbers. */
  function BitOr(x: nat, y: nat): nat
    decreases x + y
  {
    if x == 0 then y
    else if y == 0 then x
    else 2 * BitOr(x / 2, y / 2) + (if x % 2 == 1 || y % 2 == 1 then 1 else 0)
  }

  /** Or-ing a number below bit k into a multiple of 2^k is adding it. */
  lemma {:induction false} BitOrDisjoint(m: nat, y: nat, k: nat)
    requires y < Pow2(k)
    ensures BitOr(m * Pow2(k), y) == m * Pow2(k) + y
    decreases k
  {
    var x := m * Pow2(k);
    if x != 0 && y != 0 {
      var p := Pow2(k - 1);
      assert x == 2 * (m * p);
      BitOrDisjoint(m, y / 2, k - 1);
      assert BitOr(x, y) == 2 * (m * p + y / 2) + y % 2;
    }
  }

  /** `(nAllele << 16) | nInfo` in 32 bits. */
  function PackAlleleInfo(nAllele: u32, nInfo: u32): u32
  {
    Wrap32(BitOr(Wrap32(nAllele * 0x1_0000), nInfo))
  }

  /** `(nFormat << 24) | nSample` in 32 bits. */
  function PackFmtSample(nFormat: u32, nSample: u32): u32
  {
    Wrap32(BitOr(Wrap32(nFormat * 0x100_0000), nSample))
  }

  /** When the counts fit their BCF2 fields the packed word holds them side by
      side and reading the fields back gives them. */
  lemma AlleleInfoUnpacks(nAllele: u32, nInfo: u32)
    requires nAllele < 0x1_0000 && nInfo < 0x1_0000
    ensures PackAlleleInfo(nAllele, nInfo) == nAllele * 0x1_0000 + nInfo
    ensures PackAlleleInfo(nAllele, nInfo) / 0x1_0000 == nAllele
    ensures PackAlleleInfo(nAllele, nInfo) % 0x1_0000 == nInfo
  {
    Pow2Values();
    BitOrDisjoint(nAllele, nInfo, 16);
  }

  lemma FmtSampleUnpacks(nFormat: u32, nSample: u32)
    requires nFormat < 0x100 && nSample < 0x100_0000
    ensures PackFmtSample(nFormat, nSample) == nFormat * 0x100_0000 + nSample
    ensures PackFmtSample(nFormat, nSample) / 0x100_0000 == nFormat
    ensures PackFmtSample(nFormat, nSample) % 0x100_0000 == nSample
  {
    Pow2Values();
    BitOrDisjoint(nFormat, nSample, 24);
  }

  datatype VcfRecord = VcfRecord(
    rID: nat,
    beginPos: int32,
    id: string,
    ref: string,
    alt: string,
    qualBits: u32,            // the raw bits of the float QUAL
    filter: string,
    info: string,
    format: string,
    genotypeInfos: seq<string>)

  /** Fields `_countEntriesAlt` reads the last character of. */
  predicate CountableRecord(rec: VcfRecord) {
    0 < |rec.ref| < TWO_POW_32 && 0 < |rec.alt| < TWO_POW_32 &&
    0 < |rec.info| < TWO_POW_32 && 0 < |rec.format| < TWO_POW_32
  }

  /** The eight 32-bit words at the start of a record: l_shared, l_indiv,
      CHROM, POS, rlen, QUAL, n_allele_info, n_fmt_sample. */
  function FixedWords(chrom: nat, rec: VcfRecord): (w: seq<u32>)
    requires CountableRecord(rec)
  {
    [0, 0, Wrap32(chrom), Wrap32(rec.beginPos), Wrap32(|rec.ref|),
     rec.qualBits,
     PackAlleleInfo(Wrap32(EntryCount(rec.ref) + EntryCount(rec.alt)), EntryCount(rec.info)),
     PackFmtSample(EntryCount(rec.format), Wrap32(|rec.genotypeInfos|))]
  }

  /** The raw bytes of a sequence of 32-bit words. */
  function EncodeWords(w: seq<u32>): (b: seq<char>)
    ensures |b| == 4 * |w|
  {
    if |w| == 0 then [] else EncodeWords(w[..|w| - 1]) + LittleEndian32(w[|w| - 1])
  }

  /** Bytes 4k .. 4k + 3 of the encoding decode to word k. */
  lemma {:induction false} EncodeWordsDecode(w: seq<u32>, k: nat)
    requires k < |w|
    ensures DecodeLittleEndian32(EncodeWords(w)[4 * k..4 * k + 4]) == w[k]
    decreases |w|
  {
    var init := w[..|w| - 1];
    var b := EncodeWords(w);
    if k == |w| - 1 {
      assert b[4 * k..4 * k + 4] == LittleEndian32(w[k]);
      LittleEndianRoundTrip(w[k]);
    } else {
      EncodeWordsDecode(init, k);
      assert b[4 * k..4 * k + 4] == EncodeWords(init)[4 * k..4 * k + 4];
    }
  }

  /** What a reader of the 32 fixed bytes of a record finds: zero shared and
      individual lengths, the contig index, and, when they fit their fields,
      the allele, info, format and sample counts. */
  lemma RecordFixedFields(chrom: nat, rec: VcfRecord)
    requires CountableRecord(rec)
    ensures |EncodeWords(FixedWords(chrom, rec))| == 32
    ensures var b := EncodeWords(FixedWords(chrom, rec));
            DecodeLittleEndian32(b[0..4]) == 0 && DecodeLittleEndian32(b[4..8]) == 0 &&
            (chrom < TWO_POW_32 ==> DecodeLittleEndian32(b[8..12]) == chrom)
    ensures var b := EncodeWords(FixedWords(chrom, rec));
            var nAllele := EntryCount(rec.ref) + EntryCount(rec.alt);
            nAllele < 0x1_0000 && EntryCount(rec.info) < 0x1_0000 ==>
              DecodeLittleEndian32(b[24..28]) / 0x1_0000 == nAllele &&
              DecodeLittleEndian32(b[24..28]) % 0x1_0000 == EntryCount(rec.info)
    ensures var b := EncodeWords(FixedWords(chrom, rec));
            EntryCount(rec.format) < 0x100 && |rec.genotypeInfos| < 0x100_0000 ==>
              DecodeLittleEndian32(b[28..32]) / 0x100_0000 == EntryCount(rec.format) &&
              DecodeLittleEndian32(b[28..32]) % 0x100_0000 == |rec.genotypeInfos|
  {
    FixedFieldsHead(chrom, rec);
    FixedFieldsCounts(chrom, rec);
  }

  /** The two zero words and the contig number. */
  lemma FixedFieldsHead(chrom: nat, rec: VcfRecord)
    requires CountableRecord(rec)
    ensures var b := EncodeWords(FixedWords(chrom, rec));
            DecodeLittleEndian32(b[0..4]) == 0 && DecodeLittleEndian32(b[4..8]) == 0 &&
            (chrom < TWO_POW_32 ==> DecodeLittleEndian32(b[8..12]) == chrom)
  {
    var w := FixedWords(chrom, rec);
    EncodeWordsDecode(w, 0);
    EncodeWordsDecode(w, 1);
    EncodeWordsDecode(w, 2);
  }

  /** The two packed count words. */
  lemma FixedFieldsCounts(chrom: nat, rec: VcfRecord)
    requires CountableRecord(rec)
    ensures var b := EncodeWords(FixedWords(chrom, rec));
            var nAllele := EntryCount(rec.ref) + EntryCount(rec.alt);
            nAllele < 0x1_0000 && EntryCount(rec.info) < 0x1_0000 ==>
              DecodeLittleEndian32(b[24..28]) / 0x1_0000 == nAllele &&
              DecodeLittleEndian32(b[24..28]) % 0x1_0000 == EntryCount(rec.info)
    ensures var b := EncodeWords(FixedWords(chrom, rec));
            EntryCount(rec.format) < 0x100 && |rec.genotypeInfos| < 0x100_0000 ==>
              DecodeLittleEndian32(b[28..32]) / 0x100_0000 == EntryCount(rec.format) &&
              DecodeLittleEndian32(b[28..32]) % 0x100_0000 == |rec.genotypeInfos|
  {
    var w := FixedWords(chrom, rec);
    EncodeWordsDecode(w, 6);
    EncodeWordsDecode(w, 7);
    var nAllele := EntryCount(rec.ref) + EntryCount(rec.alt);
    if nAllele < 0x1_0000 && EntryCount(rec.info) < 0x1_0000 {
      AlleleInfoUnpacks(nAllele, EntryCount(rec.info));
    }
    if EntryCount(rec.format) < 0x100 && |rec.genotypeInfos| < 0x100_0000 {
      FmtSampleUnpacks(EntryCount(rec.format), |rec.genotypeInfos|);
    }
  }

  // ---------------------------------------------------------------------
  // The writer
  // ---------------------------------------------------------------------

  /** The output stream and the two name stores the header fills and the
      records consult. */
  class BcfContext {
    /** Everything written to the stream so far. */
    var target: seq<char>
    var contigNames: seq<string>
    var restNames: seq<string>

    /** Fresh, empty name stores over a stream. */
    constructor (target: seq<char>)
      ensures this.target == target && contigNames == [] && restNames == []
    {
      this.target := target;
      contigNames, restNames := [], [];
    }

    /** One iteration of the header loop: append the record's line to
        `vcfHeader`, update the stores, return the next contig number. */
    method AppendHeaderLine(vcfHeader: string, r: HeaderRecord, contigId: nat) returns (text: string, nextId: nat)
      requires NeedsId(r) ==> IdTerminated(r.value)
      modifies this
      ensures var d := Dicts(contigId, old(contigNames), old(restNames));
              text == vcfHeader + LineText(r, d) && Dicts(nextId, contigNames, restNames) == NextDicts(r, d)
      ensures target == old(target)
    {
      text := vcfHeader + "##" + r.key + ['='] + r.value;
      ghost var line := BaseLine(r);
      assert text == vcfHeader + line;
      nextId := contigId;
      if r.key == "contig" {
        var tempId := GetBcfDictionaryId(r.value);
        contigNames := contigNames + [tempId];
        AnnotateAppend(vcfHeader, BaseLine(r), contigId);
        text := ReplaceLast(text, ',') + "IDX=" + DecimalString(Wrap32(contigId)) + ">";
        line := Annotated(BaseLine(r), contigId);
        assert text == vcfHeader + line;
        nextId := contigId + 1;
      } else if IsRestKey(r.key) {
        var tempId := GetBcfDictionaryId(r.value);
        var idx := IndexOf(restNames, tempId);
        if idx.None? {
          restNames := restNames + [tempId];
          var n := |restNames| - 1;
          AnnotateAppend(vcfHeader, BaseLine(r), n);
          text := ReplaceLast(text, ',') + "IDX=" + DecimalString(Wrap32(n)) + ">";
          line := Annotated(BaseLine(r), |old(restNames)|);
          assert text == vcfHeader + line;
        }
      }
      ConcatRegroup(vcfHeader, line, "\n");
      text := text + "\n";
    }

    /** Header `_write`: magic, then the `##` lines, the column line with one
        column per sample, "\n" and NUL, prefixed by the text length. */
    method WriteHeader(records: seq<HeaderRecord>, sampleNames: seq<string>)
      requires RecordsWellFormed(records)
      modifies this
      ensures var d := Dicts(0, old(contigNames), old(restNames));
              target == old(target) + HeaderBytes(records, sampleNames, d) &&
              contigNames == HeaderLines(records, d).dicts.contigs &&
              restNames == HeaderLines(records, d).dicts.rest
    {
      ghost var d0 := Dicts(0, contigNames, restNames);
      target := target + Magic;
      var vcfHeader: string := [];
      var contigId: nat := 0;
      var i := 0;
      while i < |records|
        invariant 0 <= i <= |records|
        invariant RecordsWellFormed(records[..i])
        invariant HeaderLines(records[..i], d0) == Body(vcfHeader, Dicts(contigId, contigNames, restNames))
        invariant target == old(target) + Magic
      {
        WellFormedPrefix(records, i + 1);
        assert records[..i + 1][..i] == records[..i];
        vcfHeader, contigId := AppendHeaderLine(vcfHeader, records[i], contigId);
        i := i + 1;
      }
      assert records[..i] == records;
      vcfHeader := AppendColumns(vcfHeader, sampleNames);
      ConcatRegroup(vcfHeader, ['\n'], ['\0']);
      vcfHeader := vcfHeader + ['\n'] + ['\0'];
      assert vcfHeader == HeaderText(records, sampleNames, d0);
      ghost var size := LittleEndian32(Wrap32(|vcfHeader|));
      ConcatRegroup(old(target), Magic, size);
      ConcatRegroup(old(target), Magic + size, vcfHeader);
      target := target + LittleEndian32(Wrap32(|vcfHeader|)) + vcfHeader;
    }

    /** The column line and "\t" + name per sample. */
    static method AppendColumns(vcfHeader: string, sampleNames: seq<string>) returns (text: string)
      ensures text == vcfHeader + ColumnLine + SampleColumns(sampleNames)
    {
      text := vcfHeader + ColumnLine;
      var j := 0;
      while j < |sampleNames|
        invariant 0 <= j <= |sampleNames|
        invariant text == vcfHeader + ColumnLine + SampleColumns(sampleNames[..j])
      {
        assert sampleNames[..j + 1][..j] == sampleNames[..j];
        text := text + ['\t'] + sampleNames[j];
        j := j + 1;
      }
      assert sampleNames[..j] == sampleNames;
    }

    /** The fixed part of record `_write`: eight 32-bit words. The record's
        chromosome must be in the contig store (otherwise an uninitialised
        index is written). */
    method WriteRecordFixedFields(rec: VcfRecord, sequenceNames: seq<string>)
      requires rec.rID < |sequenceNames| && sequenceNames[rec.rID] in contigNames
      requires CountableRecord(rec)
      modifies this
      ensures contigNames == old(contigNames) && restNames == old(restNames)
      ensures target == old(target) + EncodeWords(FixedWords(IndexOf(contigNames, sequenceNames[rec.rID]).value, rec))
    {
      var idx := IndexOf(contigNames, sequenceNames[rec.rID]).value;
      var refCount := CountEntriesAlt(rec.ref);
      var altCount := CountEntriesAlt(rec.alt);
      var infoCount := CountEntriesAlt(rec.info);
      var formatCount := CountEntriesAlt(rec.format);
      var alleleCount := refCount as int + altCount as int;
      var words := [0, 0, Wrap32(idx), Wrap32(rec.beginPos), Wrap32(|rec.ref|), rec.qualBits,
                    PackAlleleInfo(Wrap32(alleleCount), infoCount),
                    PackFmtSample(formatCount, Wrap32(|rec.genotypeInfos|))];
      assert words == FixedWords(idx, rec);
      target := AppendWords(target, words);
    }

    /** `appendRawPod` of each word in turn. */
    static method AppendWords(out: seq<char>, words: seq<u32>) returns (r: seq<char>)
      ensures r == out + EncodeWords(words)
    {
      r := out;
      var k := 0;
      while k < |words|
        invariant 0 <= k <= |words|
        invariant r == out + EncodeWords(words[..k])
      {
        assert words[..k + 1][..k] == words[..k];
        r := r + LittleEndian32(words[k]);
        k := k + 1;
      }
      assert words[..k] == words;
    }
  }

  /** Header `write`: empty name stores, then the header. */
  method Write(target: seq<char>, records: seq<HeaderRecord>, sampleNames: seq<string>) returns (out: seq<char>)
    requires RecordsWellFormed(records)
    ensures out == target + HeaderBytes(records, sampleNames, Dicts(0, [], []))
  {
    var context := new BcfContext(target);
    context.WriteHeader(records, sampleNames);
    out := context.target;
  }
}
