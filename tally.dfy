/** SummarizeBAM: the per-record filters, soft-clip measurement and base tallying of a
    SAM alignment stream against a reference, and the two reports built from the
    resulting (chromosome, position, base) table. */
module Tally {
  import opened Strings
  import opened Decimal
  import opened Cigar
  import opened Consensus

  /** A 0-based position on a reference sequence. */
  datatype Site = Site(chr: string, pos: int)

  /** One key of the table: a position and the read base seen there. */
  datatype SiteBase = SiteBase(site: Site, base: char)

  /** What the table keeps per key. */
  datatype BaseStat = BaseStat(count: nat, totalQuality: int, totalReadPosition: int)

  /** The fields of one alignment line that the tally uses; FLAG, POS and MAPQ are
      stored as their field value minus one. */
  datatype Alignment = Alignment(
    flag: int, chr: string, startPos: int, mapQ: int,
    cigar: string, tLen: int, read: string, quality: string)

  /** The run parameters that shape the tally. */
  datatype Thresholds = Thresholds(baseQ: int, mapQ: int, leftTrim: int, rightTrim: int)

  function ParseAlignment(fields: seq<string>): Alignment
    requires |fields| >= 11
  {
    Alignment(Atoi(fields[1]) - 1, fields[2], Atoi(fields[3]) - 1, Atoi(fields[4]) - 1,
              fields[5], Atoi(fields[8]), fields[9], fields[10])
  }

  /** A mapped record (its CIGAR is not "*") that is not a secondary alignment. */
  predicate Primary(a: Alignment)
  {
    a.cigar != "*" && a.flag <= 256
  }

  /** A record whose bases enter the table: primary, on a reference sequence, above
      the mapping-quality threshold and free of I, D and P operations. */
  predicate Counted(a: Alignment, refNames: seq<string>, th: Thresholds)
  {
    Primary(a) && a.chr in refNames && a.mapQ > th.mapQ && IndelCount(a.cigar) == 0
  }

  /** A record the tally loop can index without leaving its strings: the loop reads
      the expanded CIGAR at every index of the read, and the quality string at the
      indices whose tag is on the reference. */
  predicate Indexable(a: Alignment)
  {
    |a.read| <= |Expanded(a.cigar)| + 1 && QualityReadable(a, Expanded(a.cigar))
  }

  /** The quality string reaches, up to its terminating NUL, every read index whose
      tag `tags` puts on the reference: the only indices where the loop reads it. */
  predicate QualityReadable(a: Alignment, tags: string)
    requires |a.read| <= |tags| + 1
  {
    forall i :: 0 <= i < |a.read| && OnReference(At(tags, i)) ==> i <= |a.quality|
  }

  /** A record whose soft-clipped tail has no quality characters is still readable:
      with tags MSSS the loop reads the quality string at index 0 only. */
  lemma ClippedTailQuality()
    ensures var a := Alignment(0, "chr", 0, 60, "1M3S", 0, "ACGT", "I");
      QualityReadable(a, "MSSS") && |a.read| > |a.quality| + 1
  {
    var a := Alignment(0, "chr", 0, 60, "1M3S", 0, "ACGT", "I");
    forall i | 0 <= i < |a.read| && OnReference(At("MSSS", i))
      ensures i <= |a.quality|
    {
      assert "MSSS"[1] == 'S' && "MSSS"[2] == 'S' && "MSSS"[3] == 'S';
    }
  }

  /** The Phred score of a quality character (Phred+33 encoding). */
  function Phred(ch: char): int
  {
    SignedChar(ch) - 33
  }

  /** The length of the leading run of soft-clip tags. */
  function LeadingSoftClip(tags: string): (n: nat)
    ensures n <= |tags|
    ensures forall k :: 0 <= k < n ==> tags[k] == 'S'
    ensures n < |tags| ==> tags[n] != 'S'
  {
    if tags == [] || tags[0] != 'S' then 0 else 1 + LeadingSoftClip(tags[1..])
  }

  /** The length of the trailing run of soft-clip tags. */
  function TrailingSoftClip(tags: string): (n: nat)
    ensures n <= |tags|
    ensures forall k :: |tags| - n <= k < |tags| ==> tags[k] == 'S'
    ensures n < |tags| ==> tags[|tags| - 1 - n] != 'S'
  {
    if tags == [] || tags[|tags| - 1] != 'S' then 0 else 1 + TrailingSoftClip(tags[..|tags| - 1])
  }

  /** Both clips span the whole expansion exactly when it is all soft clip. */
  lemma ClipsOfAllSoft(tags: string)
    ensures (forall k :: 0 <= k < |tags| ==> tags[k] == 'S') <==> LeadingSoftClip(tags) == |tags|
    ensures (forall k :: 0 <= k < |tags| ==> tags[k] == 'S') <==> TrailingSoftClip(tags) == |tags|
  {
  }

  /** The LeftClip loop. */
  method LeftClip(tags: string) returns (n: nat)
    ensures n == LeadingSoftClip(tags)
  {
    n := 0;
    var i := 0;
    while i < |tags|
      invariant i == n <= |tags|
      invariant forall k :: 0 <= k < i ==> tags[k] == 'S'
    {
      if tags[i] == 'S' {
        n := n + 1;
      } else {
        break;
      }
      i := i + 1;
    }
    LeadingUnique(tags, n);
  }

  /** The RightClip loop. */
  method RightClip(tags: string) returns (n: nat)
    ensures n == TrailingSoftClip(tags)
  {
    n := 0;
    var i := 0;
    while i < |tags|
      invariant i == n <= |tags|
      invariant forall k :: |tags| - i <= k < |tags| ==> tags[k] == 'S'
    {
      if tags[|tags| - 1 - i] == 'S' {
        n := n + 1;
      } else {
        break;
      }
      i := i + 1;
    }
    TrailingUnique(tags, n);
  }

  lemma LeadingUnique(tags: string, n: nat)
    requires n <= |tags| && (forall k :: 0 <= k < n ==> tags[k] == 'S') && (n < |tags| ==> tags[n] != 'S')
    ensures n == LeadingSoftClip(tags)
  {
  }

  lemma TrailingUnique(tags: string, n: nat)
    requires n <= |tags| && (forall k :: |tags| - n <= k < |tags| ==> tags[k] == 'S')
    requires n < |tags| ==> tags[|tags| - 1 - n] != 'S'
    ensures n == TrailingSoftClip(tags)
  {
  }

  /** A tag whose read base sits on the reference: neither an insertion nor a soft clip. */
  predicate OnReference(tag: char)
  {
    tag != 'I' && tag != 'S'
  }

  /** NumAligned when the tally loop reaches read index `i`: the number of earlier
      indices whose tag lies on the reference. */
  function AlignedBefore(tags: string, i: nat): nat
    requires i <= |tags| + 1
  {
    if i == 0 then 0 else AlignedBefore(tags, i - 1) + (if OnReference(At(tags, i - 1)) then 1 else 0)
  }

  /** Distinct on-reference indices land on distinct reference positions, and two of
      them with no on-reference index between land on neighbouring positions. */
  lemma {:induction false} AlignedConsecutive(tags: string, i: nat, j: nat)
    requires i < j <= |tags| + 1 && OnReference(At(tags, i))
    ensures AlignedBefore(tags, j) >= AlignedBefore(tags, i) + 1
    ensures (forall k :: i < k < j ==> !OnReference(At(tags, k))) ==> AlignedBefore(tags, j) == AlignedBefore(tags, i) + 1
    decreases j
  {
    if j > i + 1 {
      AlignedConsecutive(tags, i, j - 1);
    }
  }

  /** The trim window of the tally loop in the source's own integer types: the left
      bound `LeftClip + LEFTTRIM` is converted to an unsigned 32-bit int and the right
      bound `Read.size() - RightClip - RIGHTTRIM` is computed in unsigned 64 bits. */
  predicate InWindow(i: nat, readLength: nat, left: nat, right: nat, th: Thresholds)
  {
    i >= (left + th.leftTrim) % 0x1_0000_0000 &&
    i < (readLength - right - th.rightTrim) % 0x1_0000_0000_0000_0000
  }

  /** Without wrap-around the window is the read less its clips and trims. */
  lemma WindowExact(i: nat, readLength: nat, left: nat, right: nat, th: Thresholds)
    requires 0 <= left + th.leftTrim < 0x1_0000_0000
    requires 0 <= th.rightTrim && right + th.rightTrim <= readLength < 0x1_0000_0000_0000_0000
    ensures InWindow(i, readLength, left, right, th) <==>
      left + th.leftTrim <= i < readLength - right - th.rightTrim
  {
  }

  /** When clip and trim together exceed the read, the right bound wraps to a huge
      value and the right-hand trim no longer excludes anything: here a 2-base aligned
      read whose trim is 5 keeps both bases. */
  lemma WindowWraps()
    ensures InWindow(0, 2, 0, 0, Thresholds(20, 20, 0, 5))
    ensures InWindow(1, 2, 0, 0, Thresholds(20, 20, 0, 5))
  {
  }

  /** One tally: a read base added at a position with its quality and read position. */
  datatype Call = Call(site: Site, base: char, quality: int, readPosition: int)

  /** Whether the base at read index `i` is tallied: on the reference, above the base
      quality threshold and inside the trim window. */
  predicate Tallied(a: Alignment, tags: string, th: Thresholds, i: nat)
    requires i < |a.read| && |a.read| <= |tags| + 1 && QualityReadable(a, tags)
  {
    OnReference(At(tags, i)) && Phred(At(a.quality, i)) > th.baseQ &&
    InWindow(i, |a.read|, LeadingSoftClip(tags), TrailingSoftClip(tags), th)
  }

  /** The tally of read index `i`: the position is StartPos plus the number of earlier
      on-reference bases; the read position is 1-based from the 5' end of the read,
      counted from the left when TLEN >= 0 and as `len - (i + 1)` otherwise. */
  function CallAt(a: Alignment, tags: string, i: nat): Call
    requires i < |a.read| && |a.read| <= |tags| + 1 && QualityReadable(a, tags)
    requires OnReference(At(tags, i))
  {
    Call(Site(a.chr, a.startPos + AlignedBefore(tags, i)), a.read[i], Phred(At(a.quality, i)),
         if a.tLen >= 0 then i + 1 else |a.read| - (i + 1))
  }

  /** The tallies of the first `n` read indices, in read order. */
  function ReadCalls(a: Alignment, tags: string, th: Thresholds, n: nat): seq<Call>
    requires n <= |a.read| <= |tags| + 1 && QualityReadable(a, tags)
  {
    if n == 0 then []
    else ReadCalls(a, tags, th, n - 1) + (if Tallied(a, tags, th, n - 1) then [CallAt(a, tags, n - 1)] else [])
  }

  lemma ReadCallsStep(a: Alignment, tags: string, th: Thresholds, i: nat)
    requires i < |a.read| <= |tags| + 1 && QualityReadable(a, tags)
    ensures ReadCalls(a, tags, th, i + 1) ==
      ReadCalls(a, tags, th, i) + (if Tallied(a, tags, th, i) then [CallAt(a, tags, i)] else [])
  {
  }

  /** The tallies are exactly those of the tallied indices, in increasing index order. */
  lemma {:induction false} ReadCallsExactly(a: Alignment, tags: string, th: Thresholds, n: nat)
    requires n <= |a.read| <= |tags| + 1 && QualityReadable(a, tags)
    ensures forall i :: 0 <= i < n && Tallied(a, tags, th, i) ==> CallAt(a, tags, i) in ReadCalls(a, tags, th, n)
    ensures forall c :: c in ReadCalls(a, tags, th, n) ==>
      exists i :: 0 <= i < n && Tallied(a, tags, th, i) && c == CallAt(a, tags, i)
  {
    if n > 0 {
      ReadCallsExactly(a, tags, th, n - 1);
    }
  }

  /** Every tally of a record carries a quality above the threshold and a position
      inside the record's span on the reference. */
  lemma ReadCallsBounds(a: Alignment, tags: string, th: Thresholds, n: nat)
    requires n <= |a.read| <= |tags| + 1 && QualityReadable(a, tags)
    ensures forall c :: c in ReadCalls(a, tags, th, n) ==>
      c.quality > th.baseQ && c.site.chr == a.chr &&
      a.startPos <= c.site.pos < a.startPos + AlignedBefore(tags, n)
  {
    ReadCallsExactly(a, tags, th, n);
    forall c | c in ReadCalls(a, tags, th, n)
      ensures c.quality > th.baseQ && c.site.chr == a.chr &&
        a.startPos <= c.site.pos < a.startPos + AlignedBefore(tags, n)
    {
      var i :| 0 <= i < n && Tallied(a, tags, th, i) && c == CallAt(a, tags, i);
      AlignedConsecutive(tags, i, n);
    }
  }

  /** The tallies a record contributes: none unless it is counted. */
  function RecordCalls(a: Alignment, refNames: seq<string>, th: Thresholds): seq<Call>
    requires Counted(a, refNames, th) ==> Indexable(a)
  {
    if Counted(a, refNames, th) then ReadCalls(a, Expanded(a.cigar), th, |a.read|) else []
  }

  /** The table entry for a key; a missing key reads as all zero. */
  function StatOf(m: map<SiteBase, BaseStat>, k: SiteBase): BaseStat
  {
    if k in m then m[k] else BaseStat(0, 0, 0)
  }

  /** The coverage entry for a position; a missing position reads as zero. */
  function DepthOf(m: map<Site, nat>, s: Site): nat
  {
    if s in m then m[s] else 0
  }

  /** The table after a sequence of tallies. */
  function SummaryOf(calls: seq<Call>): map<SiteBase, BaseStat>
  {
    if calls == [] then map[]
    else
      var m := SummaryOf(calls[..|calls| - 1]);
      var c := calls[|calls| - 1];
      var k := SiteBase(c.site, c.base);
      var st := StatOf(m, k);
      m[k := BaseStat(st.count + 1, st.totalQuality + c.quality, st.totalReadPosition + c.readPosition)]
  }

  /** The coverage table after a sequence of tallies. */
  function CoverageOf(calls: seq<Call>): map<Site, nat>
  {
    if calls == [] then map[]
    else
      var m := CoverageOf(calls[..|calls| - 1]);
      var s := calls[|calls| - 1].site;
      m[s := DepthOf(m, s) + 1]
  }

  /** The tallies of one key. */
  function CallsOf(calls: seq<Call>, k: SiteBase): seq<Call>
  {
    if calls == [] then []
    else
      var c := calls[|calls| - 1];
      CallsOf(calls[..|calls| - 1], k) + (if c.site == k.site && c.base == k.base then [c] else [])
  }

  function TotalQuality(calls: seq<Call>): int
  {
    if calls == [] then 0 else TotalQuality(calls[..|calls| - 1]) + calls[|calls| - 1].quality
  }

  function TotalReadPosition(calls: seq<Call>): int
  {
    if calls == [] then 0 else TotalReadPosition(calls[..|calls| - 1]) + calls[|calls| - 1].readPosition
  }

  /** The bases tallied at a position, with their multiplicities. */
  function BasesAt(calls: seq<Call>, s: Site): multiset<char>
  {
    if calls == [] then multiset{}
    else
      var c := calls[|calls| - 1];
      BasesAt(calls[..|calls| - 1], s) + (if c.site == s then multiset{c.base} else multiset{})
  }

  /** Each table entry holds the number of tallies of its key and the sums of their
      qualities and read positions. */
  lemma {:induction false} SummaryCounts(calls: seq<Call>, k: SiteBase)
    ensures StatOf(SummaryOf(calls), k) ==
      BaseStat(|CallsOf(calls, k)|, TotalQuality(CallsOf(calls, k)), TotalReadPosition(CallsOf(calls, k)))
  {
    if calls != [] {
      var init := calls[..|calls| - 1];
      var c := calls[|calls| - 1];
      SummaryCounts(init, k);
      var cs := CallsOf(init, k);
      if c.site == k.site && c.base == k.base {
        assert SiteBase(c.site, c.base) == k;
        assert CallsOf(calls, k) == cs + [c];
        assert (cs + [c])[..|cs + [c]| - 1] == cs;
        assert TotalQuality(cs + [c]) == TotalQuality(cs) + c.quality;
        assert TotalReadPosition(cs + [c]) == TotalReadPosition(cs) + c.readPosition;
      } else {
        assert SiteBase(c.site, c.base) != k;
        assert CallsOf(calls, k) == cs + [];
        assert cs + [] == cs;
      }
    }
  }

  /** The coverage of a position is the number of bases tallied there, and the count
      of each base is its multiplicity among them: coverage is the sum of the counts
      over every base key. */
  lemma {:induction false} CoverageIsSumOfCounts(calls: seq<Call>, s: Site, b: char)
    ensures DepthOf(CoverageOf(calls), s) == |BasesAt(calls, s)|
    ensures StatOf(SummaryOf(calls), SiteBase(s, b)).count == BasesAt(calls, s)[b]
  {
    if calls != [] {
      CoverageIsSumOfCounts(calls[..|calls| - 1], s, b);
    }
  }

  /** The tallies one alignment line contributes. */
  function LineCalls(line: string, refNames: seq<string>, th: Thresholds): seq<Call>
    requires Tallyable(line, refNames, th)
  {
    RecordCalls(ParseAlignment(Split(line, '\t')), refNames, th)
  }

  /** The indel operations one line adds to NumIndels: those of a primary record. */
  function LineIndels(line: string): nat
    requires HasFields(line)
  {
    var a := ParseAlignment(Split(line, '\t'));
    if Primary(a) then IndelCount(a.cigar) else 0
  }

  /** The tallies of the first `n` alignment lines, in order. */
  function LinesCalls(lines: seq<string>, n: nat, refNames: seq<string>, th: Thresholds): seq<Call>
    requires n <= |lines| && forall i :: 0 <= i < |lines| ==> Tallyable(lines[i], refNames, th)
  {
    if n == 0 then [] else LinesCalls(lines, n - 1, refNames, th) + LineCalls(lines[n - 1], refNames, th)
  }

  /** The value NumIndels gains over the first `n` lines. */
  function LinesIndels(lines: seq<string>, n: nat, refNames: seq<string>, th: Thresholds): nat
    requires n <= |lines| && forall i :: 0 <= i < |lines| ==> Tallyable(lines[i], refNames, th)
  {
    if n == 0 then 0 else LinesIndels(lines, n - 1, refNames, th) + LineIndels(lines[n - 1])
  }

  lemma LinesStep(lines: seq<string>, n: nat, refNames: seq<string>, th: Thresholds)
    requires n < |lines| && forall i :: 0 <= i < |lines| ==> Tallyable(lines[i], refNames, th)
    ensures LinesCalls(lines, n + 1, refNames, th) == LinesCalls(lines, n, refNames, th) + LineCalls(lines[n], refNames, th)
    ensures LinesIndels(lines, n + 1, refNames, th) == LinesIndels(lines, n, refNames, th) + LineIndels(lines[n])
  {
  }

  /** A line with the eleven mandatory fields of an alignment record. */
  predicate HasFields(line: string)
  {
    |Split(line, '\t')| >= 11
  }

  /** A line the tally can read: it has the mandatory fields and, if it is counted,
      the loop stays inside its strings. */
  predicate Tallyable(line: string, refNames: seq<string>, th: Thresholds)
  {
    HasFields(line) &&
    var a := ParseAlignment(Split(line, '\t'));
    Counted(a, refNames, th) ==> Indexable(a)
  }

  /** One row of the base-frequency report. A mean prints as `Zero` ("0") when the
      count is zero and as the quotient of total by count otherwise. */
  datatype Mean = Quotient(total: int, count: int) | Zero
  datatype SummaryRow = SummaryRow(
    chr: string, pos: int, base: char, refBase: char, genomicPos: int,
    count: nat, meanQuality: Mean, meanReadPosition: Mean)

  /** The number of reference positions before sequence `i`. */
  function Offset(seqs: seq<string>, i: nat): nat
    requires i <= |seqs|
  {
    if i == 0 then 0 else Offset(seqs, i - 1) + |seqs[i - 1]|
  }

  lemma {:induction false} OffsetMonotone(seqs: seq<string>, i: nat, i': nat)
    requires i < i' <= |seqs|
    ensures Offset(seqs, i) + |seqs[i]| <= Offset(seqs, i')
    decreases i'
  {
    if i + 1 < i' {
      OffsetMonotone(seqs, i, i' - 1);
    }
  }

  /** The row for base `k` of `Bases` at 0-based position `j` of the named sequence. */
  function ReportRow(summary: map<SiteBase, BaseStat>, name: string, ref: string, j: nat, k: nat, genomicPos: int): SummaryRow
    requires j < |ref| && k < 4
  {
    var st := StatOf(summary, SiteBase(Site(name, j), Bases[k]));
    if st.count > 0 then
      SummaryRow(name, j + 1, Bases[k], ref[j], genomicPos, st.count,
                 Quotient(st.totalQuality, st.count), Quotient(st.totalReadPosition, st.count))
    else
      SummaryRow(name, j + 1, Bases[k], ref[j], genomicPos, st.count, Zero, Zero)
  }

  /** The four rows of position `j`, in A, C, G, T order. */
  function PositionBlock(summary: map<SiteBase, BaseStat>, name: string, ref: string, j: nat, genomicPos: int): seq<SummaryRow>
    requires j < |ref|
  {
    [ReportRow(summary, name, ref, j, 0, genomicPos), ReportRow(summary, name, ref, j, 1, genomicPos),
     ReportRow(summary, name, ref, j, 2, genomicPos), ReportRow(summary, name, ref, j, 3, genomicPos)]
  }

  /** The rows of the first `n` positions of one sequence whose first position has
      genomic position `g0 + 1`. */
  function SequenceRows(summary: map<SiteBase, BaseStat>, name: string, ref: string, g0: int, n: nat): seq<SummaryRow>
    requires n <= |ref|
  {
    if n == 0 then []
    else SequenceRows(summary, name, ref, g0, n - 1) + PositionBlock(summary, name, ref, n - 1, g0 + n)
  }

  /** The report for the first `i` reference sequences. */
  function Report(summary: map<SiteBase, BaseStat>, names: seq<string>, seqs: seq<string>, i: nat): seq<SummaryRow>
    requires i <= |seqs| <= |names|
  {
    if i == 0 then []
    else
      Report(summary, names, seqs, i - 1) +
      SequenceRows(summary, names[i - 1], seqs[i - 1], Offset(seqs, i - 1), |seqs[i - 1]|)
  }

  /** Row `r` of a sequence's rows is base `r % 4` at position `r / 4`. */
  lemma {:induction false} SequenceRowsAt(summary: map<SiteBase, BaseStat>, name: string, ref: string, g0: int, n: nat)
    requires n <= |ref|
    ensures |SequenceRows(summary, name, ref, g0, n)| == 4 * n
    ensures forall r :: 0 <= r < 4 * n ==>
      SequenceRows(summary, name, ref, g0, n)[r] == ReportRow(summary, name, ref, r / 4, r % 4, g0 + r / 4 + 1)
  {
    if n > 0 {
      SequenceRowsAt(summary, name, ref, g0, n - 1);
      var rows := SequenceRows(summary, name, ref, g0, n);
      forall r | 4 * (n - 1) <= r < 4 * n
        ensures rows[r] == ReportRow(summary, name, ref, r / 4, r % 4, g0 + r / 4 + 1)
      {
        assert r / 4 == n - 1;
      }
    }
  }

  lemma {:induction false} ReportLength(summary: map<SiteBase, BaseStat>, names: seq<string>, seqs: seq<string>, i: nat)
    requires i <= |seqs| <= |names|
    ensures |Report(summary, names, seqs, i)| == 4 * Offset(seqs, i)
  {
    if i > 0 {
      ReportLength(summary, names, seqs, i - 1);
      SequenceRowsAt(summary, names[i - 1], seqs[i - 1], Offset(seqs, i - 1), |seqs[i - 1]|);
    }
  }

  lemma SequenceRowAt(summary: map<SiteBase, BaseStat>, name: string, ref: string, g0: int, j: nat, k: nat)
    requires j < |ref| && k < 4
    ensures |SequenceRows(summary, name, ref, g0, |ref|)| == 4 * |ref|
    ensures SequenceRows(summary, name, ref, g0, |ref|)[4 * j + k] == ReportRow(summary, name, ref, j, k, g0 + j + 1)
  {
    SequenceRowsAt(summary, name, ref, g0, |ref|);
    var r := 4 * j + k;
    assert r / 4 == j && r % 4 == k;
  }

  /** The report has four rows per reference position; row `r` is about base
      `Bases[r % 4]` and carries genomic position `r / 4 + 1`, which therefore rises by
      one per position across all sequences, starting at 1. */
  lemma {:induction false} ReportShape(summary: map<SiteBase, BaseStat>, names: seq<string>, seqs: seq<string>, i: nat)
    requires i <= |seqs| <= |names|
    ensures |Report(summary, names, seqs, i)| == 4 * Offset(seqs, i)
    ensures forall r :: 0 <= r < |Report(summary, names, seqs, i)| ==>
      Report(summary, names, seqs, i)[r].genomicPos == r / 4 + 1 &&
      Report(summary, names, seqs, i)[r].base == Bases[r % 4]
  {
    if i > 0 {
      ReportShape(summary, names, seqs, i - 1);
      var g0 := Offset(seqs, i - 1);
      SequenceRowsAt(summary, names[i - 1], seqs[i - 1], g0, |seqs[i - 1]|);
      var rows := Report(summary, names, seqs, i);
      forall r | 4 * g0 <= r < |rows|
        ensures rows[r].genomicPos == r / 4 + 1 && rows[r].base == Bases[r % 4]
      {
        var r' := r - 4 * g0;
        assert r' / 4 == r / 4 - g0 && r' % 4 == r % 4;
      }
    }
  }

  /** The row of base `k` at position `j` of sequence `i'` sits at index
      `4 * (Offset + j) + k` and reports that key's table entry. */
  lemma {:induction false} ReportAt(summary: map<SiteBase, BaseStat>, names: seq<string>, seqs: seq<string>,
                                    i: nat, i': nat, j: nat, k: nat)
    requires i <= |seqs| <= |names| && i' < i && j < |seqs[i']| && k < 4
    ensures 4 * (Offset(seqs, i') + j) + k < |Report(summary, names, seqs, i)|
    ensures Report(summary, names, seqs, i)[4 * (Offset(seqs, i') + j) + k] ==
      ReportRow(summary, names[i'], seqs[i'], j, k, Offset(seqs, i') + j + 1)
    decreases i
  {
    var g0 := Offset(seqs, i - 1);
    var prev := Report(summary, names, seqs, i - 1);
    var last := SequenceRows(summary, names[i - 1], seqs[i - 1], g0, |seqs[i - 1]|);
    assert Report(summary, names, seqs, i) == prev + last;
    ReportLength(summary, names, seqs, i - 1);
    var r := 4 * (Offset(seqs, i') + j) + k;
    if i' < i - 1 {
      ReportAt(summary, names, seqs, i - 1, i', j, k);
      OffsetMonotone(seqs, i', i - 1);
      assert r < |prev|;
    } else {
      SequenceRowAt(summary, names[i - 1], seqs[i - 1], g0, j, k);
      assert r == |prev| + (4 * j + k);
    }
  }

  /** The count a report row prints is the number of tallies of its key, and its
      means are the totals of those tallies over that number (or 0 and 0 when there
      are none). */
  lemma ReportCounts(calls: seq<Call>, name: string, ref: string, j: nat, k: nat, genomicPos: int)
    requires j < |ref| && k < 4
    ensures var row := ReportRow(SummaryOf(calls), name, ref, j, k, genomicPos);
      var tallies := CallsOf(calls, SiteBase(Site(name, j), Bases[k]));
      row.count == |tallies| &&
      (row.count == 0 ==> row.meanQuality == Zero && row.meanReadPosition == Zero) &&
      (row.count > 0 ==> row.meanQuality == Quotient(TotalQuality(tallies), |tallies|) &&
                         row.meanReadPosition == Quotient(TotalReadPosition(tallies), |tallies|))
  {
    SummaryCounts(calls, SiteBase(Site(name, j), Bases[k]));
  }

  /** The consensus base of position `j` of the named sequence. */
  function ConsensusAt(summary: map<SiteBase, BaseStat>, name: string, j: nat): char
  {
    var s := Site(name, j);
    ConsensusBase(StatOf(summary, SiteBase(s, 'N')).count,
                  [StatOf(summary, SiteBase(s, 'A')).count, StatOf(summary, SiteBase(s, 'C')).count,
                   StatOf(summary, SiteBase(s, 'G')).count, StatOf(summary, SiteBase(s, 'T')).count])
  }

  /** The consensus of the first `n` positions of a sequence. */
  function ConsensusSequence(summary: map<SiteBase, BaseStat>, name: string, n: nat): (s: string)
    ensures |s| == n
  {
    if n == 0 then [] else ConsensusSequence(summary, name, n - 1) + [ConsensusAt(summary, name, n - 1)]
  }

  /** One FASTA record: a header line with the name, the wrapped sequence and one
      more line break. */
  function FastaRecord(name: string, sequence: string): string
  {
    ">" + name + "\n" + Wrapped(sequence) + "\n"
  }

  /** The consensus FASTA text of the first `i` sequences. */
  function ConsensusFasta(summary: map<SiteBase, BaseStat>, names: seq<string>, seqs: seq<string>, i: nat): string
    requires i <= |seqs| <= |names|
  {
    if i == 0 then []
    else
      ConsensusFasta(summary, names, seqs, i - 1) + FastaRecord(names[i - 1], ConsensusSequence(summary, names[i - 1], |seqs[i - 1]|))
  }

  /** The consensus sequence has one base per reference position, each 'N' or one of
      A, C, G, T. */
  lemma {:induction false} ConsensusSequenceContents(summary: map<SiteBase, BaseStat>, name: string, n: nat)
    ensures |ConsensusSequence(summary, name, n)| == n
    ensures forall j :: 0 <= j < n ==>
      ConsensusSequence(summary, name, n)[j] == ConsensusAt(summary, name, j) && ConsensusAt(summary, name, j) in "NACGT"
  {
    if n > 0 {
      ConsensusSequenceContents(summary, name, n - 1);
      var s := Site(name, n - 1);
      ConsensusBaseIsFirstMaximum(StatOf(summary, SiteBase(s, 'N')).count,
        [StatOf(summary, SiteBase(s, 'A')).count, StatOf(summary, SiteBase(s, 'C')).count,
         StatOf(summary, SiteBase(s, 'G')).count, StatOf(summary, SiteBase(s, 'T')).count]);
    }
  }

  /** Removing the line breaks from a record's sequence lines gives the consensus
      back. */
  lemma ConsensusUnwrapped(summary: map<SiteBase, BaseStat>, name: string, n: nat)
    ensures Remove(Wrapped(ConsensusSequence(summary, name, n)), '\n') == ConsensusSequence(summary, name, n)
  {
    ConsensusSequenceContents(summary, name, n);
    var s := ConsensusSequence(summary, name, n);
    forall j | 0 <= j < |s|
      ensures s[j] != '\n'
    {
      assert s[j] in "NACGT";
    }
    WrappedContents(s);
  }

  class BaseTally {
    /** BAMSummary, flattened: (chromosome, position, base) to the entry. */
    var summary: map<SiteBase, BaseStat>
    /** BAMCoverage: (chromosome, position) to the number of tallied bases. */
    var coverage: map<Site, nat>
    /** NumIndels: I, D and P characters in the CIGARs of primary records. */
    var numIndels: int
    /** Every tally so far, in order. */
    ghost var calls: seq<Call>

    ghost predicate Valid()
      reads this
    {
      summary == SummaryOf(calls) && coverage == CoverageOf(calls)
    }

    /** The empty table; positions not yet tallied read as zero, as after the
        initialisation loop over the reference. */
    constructor ()
      ensures Valid() && calls == [] && numIndels == 0
    {
      summary := map[];
      coverage := map[];
      numIndels := 0;
      calls := [];
    }

    /** One tally: the coverage and the base's count rise by one, its totals by the
        quality and read position. */
    method AddCall(c: Call)
      requires Valid()
      modifies this
      ensures Valid() && calls == old(calls) + [c] && numIndels == old(numIndels)
    {
      var key := SiteBase(c.site, c.base);
      var st := StatOf(summary, key);
      coverage := coverage[c.site := DepthOf(coverage, c.site) + 1];
      summary := summary[key := BaseStat(st.count + 1, st.totalQuality + c.quality, st.totalReadPosition + c.readPosition)];
      assert (calls + [c])[..|calls + [c]| - 1] == calls;
      calls := calls + [c];
    }

    /** The clip measurement and the tally loop over the bases of a counted record. */
    method TallyRead(a: Alignment, tags: string, th: Thresholds)
      requires Valid() && |a.read| <= |tags| + 1 && QualityReadable(a, tags)
      modifies this
      ensures Valid() && numIndels == old(numIndels)
      ensures calls == old(calls) + ReadCalls(a, tags, th, |a.read|)
    {
      var leftClip := LeftClip(tags);
      var rightClip := RightClip(tags);
      var numAligned := 0;
      for i := 0 to |a.read|
        invariant Valid() && numIndels == old(numIndels)
        invariant numAligned == AlignedBefore(tags, i)
        invariant calls == old(calls) + ReadCalls(a, tags, th, i)
      {
        ghost var done := ReadCalls(a, tags, th, i);
        ghost var step := if Tallied(a, tags, th, i) then [CallAt(a, tags, i)] else [];
        ReadCallsStep(a, tags, th, i);
        AppendAssoc(old(calls), done, step);
        TallyIndex(a, tags, th, i, leftClip, rightClip, numAligned);
        if OnReference(At(tags, i)) {
          numAligned := numAligned + 1;
        }
      }
    }

    /** One index of the tally loop: a base on the reference, above the quality
        threshold and inside the window is added at StartPos + NumAligned. */
    method TallyIndex(a: Alignment, tags: string, th: Thresholds, i: nat, leftClip: nat, rightClip: nat, numAligned: nat)
      requires Valid() && i < |a.read| <= |tags| + 1 && QualityReadable(a, tags)
      requires leftClip == LeadingSoftClip(tags) && rightClip == TrailingSoftClip(tags)
      requires numAligned == AlignedBefore(tags, i)
      modifies this
      ensures Valid() && numIndels == old(numIndels)
      ensures calls == old(calls) + (if Tallied(a, tags, th, i) then [CallAt(a, tags, i)] else [])
    {
      var tag := At(tags, i);
      if tag != 'I' && tag != 'S' {
        var refPos := a.startPos + numAligned;
        var q := At(a.quality, i);
        if Phred(q) > th.baseQ && InWindow(i, |a.read|, leftClip, rightClip, th) {
          var readPosition := if a.tLen >= 0 then i + 1 else |a.read| - (i + 1);
          AddCall(Call(Site(a.chr, refPos), a.read[i], Phred(q), readPosition));
        }
      }
    }

    /** The body of the read loop for one split line: the unmapped and secondary
        filters, the CIGAR expansion, the indel count, the counted filter, the tally. */
    method AddRecord(fields: seq<string>, refNames: seq<string>, th: Thresholds)
      requires Valid() && |fields| >= 11
      requires Counted(ParseAlignment(fields), refNames, th) ==> Indexable(ParseAlignment(fields))
      modifies this
      ensures Valid()
      ensures calls == old(calls) + RecordCalls(ParseAlignment(fields), refNames, th)
      ensures var a := ParseAlignment(fields);
        numIndels == old(numIndels) + (if Primary(a) then IndelCount(a.cigar) else 0)
    {
      var a := ParseAlignment(fields);
      if a.cigar == "*" || a.flag > 256 {
        return;
      }
      var tags := ExpandCIGAR(a.cigar);
      var indels := CountIndelOperations(a.cigar);
      numIndels := numIndels + indels;
      if !(a.chr in refNames && a.mapQ > th.mapQ && indels == 0) {
        return;
      }
      TallyRead(a, tags, th);
    }

    /** One iteration of the read loop: split the line, then handle the record. */
    method ProcessLine(line: string, refNames: seq<string>, th: Thresholds)
      requires Valid() && Tallyable(line, refNames, th)
      modifies this
      ensures Valid()
      ensures calls == old(calls) + LineCalls(line, refNames, th)
      ensures numIndels == old(numIndels) + LineIndels(line)
    {
      var fields := StringSplit(line, '\t');
      AddRecord(fields, refNames, th);
    }

    /** The read loop over the lines of an alignment file. */
    method TallyLines(lines: seq<string>, refNames: seq<string>, th: Thresholds)
      requires Valid()
      requires forall i :: 0 <= i < |lines| ==> Tallyable(lines[i], refNames, th)
      modifies this
      ensures Valid()
      ensures calls == old(calls) + LinesCalls(lines, |lines|, refNames, th)
      ensures numIndels == old(numIndels) + LinesIndels(lines, |lines|, refNames, th)
    {
      for n := 0 to |lines|
        invariant Valid()
        invariant calls == old(calls) + LinesCalls(lines, n, refNames, th)
        invariant numIndels == old(numIndels) + LinesIndels(lines, n, refNames, th)
      {
        LinesStep(lines, n, refNames, th);
        AppendAssoc(old(calls), LinesCalls(lines, n, refNames, th), LineCalls(lines[n], refNames, th));
        ProcessLine(lines[n], refNames, th);
      }
    }

    /** The four rows of one position. */
    method PositionRows(name: string, ref: string, j: nat, genomicPos: int) returns (block: seq<SummaryRow>)
      requires j < |ref|
      ensures block == PositionBlock(summary, name, ref, j, genomicPos)
    {
      block := [];
      for k := 0 to 4
        invariant block == PositionBlock(summary, name, ref, j, genomicPos)[..k]
      {
        var st := StatOf(summary, SiteBase(Site(name, j), Bases[k]));
        if st.count > 0 {
          block := block + [SummaryRow(name, j + 1, Bases[k], ref[j], genomicPos, st.count,
                                       Quotient(st.totalQuality, st.count), Quotient(st.totalReadPosition, st.count))];
        } else {
          block := block + [SummaryRow(name, j + 1, Bases[k], ref[j], genomicPos, st.count, Zero, Zero)];
        }
      }
    }

    /** The base-frequency report over the reference sequences. */
    method SummaryRows(names: seq<string>, seqs: seq<string>) returns (rows: seq<SummaryRow>)
      requires |seqs| <= |names|
      ensures rows == Report(summary, names, seqs, |seqs|)
    {
      rows := [];
      var genomicPosition := 0;
      for i := 0 to |seqs|
        invariant genomicPosition == Offset(seqs, i)
        invariant rows == Report(summary, names, seqs, i)
      {
        ghost var done := rows;
        for j := 0 to |seqs[i]|
          invariant genomicPosition == Offset(seqs, i) + j
          invariant rows == done + SequenceRows(summary, names[i], seqs[i], Offset(seqs, i), j)
        {
          genomicPosition := genomicPosition + 1;
          var block := PositionRows(names[i], seqs[i], j, genomicPosition);
          rows := rows + block;
        }
      }
    }

    /** The comparison loop of the consensus at one position. */
    method MajorityBase(name: string, j: nat) returns (maxbase: char)
      ensures maxbase == ConsensusAt(summary, name, j)
    {
      var s := Site(name, j);
      ghost var nCount := StatOf(summary, SiteBase(s, 'N')).count;
      ghost var counts := [StatOf(summary, SiteBase(s, 'A')).count, StatOf(summary, SiteBase(s, 'C')).count,
                           StatOf(summary, SiteBase(s, 'G')).count, StatOf(summary, SiteBase(s, 'T')).count];
      maxbase := 'N';
      ghost var r := -1;
      for k := 0 to 4
        invariant r == LeaderAfter(nCount, counts, k)
        invariant maxbase == if r < 0 then 'N' else Bases[r]
      {
        assert counts[k] == StatOf(summary, SiteBase(s, Bases[k])).count;
        if StatOf(summary, SiteBase(s, Bases[k])).count > StatOf(summary, SiteBase(s, maxbase)).count {
          maxbase := Bases[k];
          r := k;
        }
      }
    }

    /** The consensus FASTA text: per sequence a header, the consensus with a line
        break after every 70th base, and a closing line break. */
    method ConsensusText(names: seq<string>, seqs: seq<string>) returns (text: string)
      requires |seqs| <= |names|
      ensures text == ConsensusFasta(summary, names, seqs, |seqs|)
    {
      text := [];
      for i := 0 to |seqs|
        invariant text == ConsensusFasta(summary, names, seqs, i)
      {
        var body := WrappedConsensus(names[i], |seqs[i]|);
        var record := ">" + names[i] + "\n" + body + "\n";
        assert record == FastaRecord(names[i], ConsensusSequence(summary, names[i], |seqs[i]|));
        text := text + record;
      }
    }

    /** The consensus bases of the first `n` positions of a sequence, each followed by a
        line break when it is a 70th base. */
    method WrappedConsensus(name: string, n: nat) returns (text: string)
      ensures text == Wrapped(ConsensusSequence(summary, name, n))
    {
      text := [];
      for j := 0 to n
        invariant text == Wrapped(ConsensusSequence(summary, name, j))
      {
        var maxbase := MajorityBase(name, j);
        ghost var prefix := ConsensusSequence(summary, name, j);
        WrappedSnoc(prefix, maxbase);
        text := text + [maxbase];
        if (j + 1) % 70 == 0 {
          text := text + "\n";
        }
      }
    }
  }
}
