/** Gene models in the twelve-column BED format of the UCSC genome browser: reading
    one record per line, and the map between positions in a gene (its exons laid end to
    end) and positions in the chromosome. */
module GeneModel {
  import opened Strings
  import opened Decimal

  /** One BED record as the annotator keeps it. Coordinates are 0-based; the exon starts
      are relative to `chrStart`. */
  datatype Annotation = Annotation(chr: string, chrStart: int, chrEnd: int, name: string,
                                   numExons: int, exonSizes: seq<int>, exonStarts: seq<int>)

  /** Why a BED file is refused: a line with fewer than 12 fields, or a gene on the
      negative strand. */
  datatype BedError = NotBed | NegativeStrand

  datatype Result<T> = Ok(value: T) | Err(error: BedError)

  /** The number of iterations of a loop `for (i = 0; i < n; i++)`. */
  function Iterations(n: int): nat
  {
    if n < 0 then 0 else n
  }

  /** The values of the first `n` entries of a comma-separated list. */
  function ExonList(items: seq<string>, n: nat): (r: seq<int>)
    requires n <= |items|
    ensures |r| == n && forall i :: 0 <= i < n ==> r[i] == Atoi(items[i])
  {
    if n == 0 then [] else ExonList(items, n - 1) + [Atoi(items[n - 1])]
  }

  /** A line the reader accepts: at least 12 fields, and "+" in field 5. */
  predicate Accepted(line: string)
  {
    var fields := Split(line, '\t');
    |fields| >= 12 && fields[5] == "+"
  }

  /** The exon lists of an accepted BED line hold at least the announced number of
      entries, as the reading loop indexes them without a bound check. A refused line has
      its exon lists never read. */
  predicate ExonListsComplete(line: string)
  {
    var fields := Split(line, '\t');
    Accepted(line) ==>
      Iterations(Atoi(fields[9])) <= |Split(fields[10], ',')| &&
      Iterations(Atoi(fields[9])) <= |Split(fields[11], ',')|
  }

  /** Every line the reader reaches, that is every line up to and including the first
      refused one, has complete exon lists. Lines after a refusal are never read. */
  predicate BedReadable(lines: seq<string>)
    decreases |lines|
  {
    lines != [] ==> ExonListsComplete(lines[0]) && (Accepted(lines[0]) ==> BedReadable(lines[1..]))
  }

  /** The record of the fields of an accepted line: chromosome, start, end and name from
      fields 0 to 3, the exon count from field 9, then that many exon sizes and exon
      starts from the comma-separated fields 10 and 11. */
  function ParseBEDRow(fields: seq<string>): (a: Annotation)
    requires |fields| >= 12
    requires Iterations(Atoi(fields[9])) <= |Split(fields[10], ',')|
    requires Iterations(Atoi(fields[9])) <= |Split(fields[11], ',')|
  {
    var n := Iterations(Atoi(fields[9]));
    Annotation(fields[0], Atoi(fields[1]), Atoi(fields[2]), fields[3], Atoi(fields[9]),
               ExonList(Split(fields[10], ','), n), ExonList(Split(fields[11], ','), n))
  }

  /** One line of a BED file: refused with fewer than 12 fields or when field 5 is not
      "+", otherwise read into a record. */
  function BedRow(line: string): Result<Annotation>
    requires ExonListsComplete(line)
  {
    var fields := Split(line, '\t');
    if |fields| < 12 then Err(NotBed)
    else if fields[5] != "+" then Err(NegativeStrand)
    else Ok(ParseBEDRow(fields))
  }

  /** The outcome of reading the first `n` rows: their records in order, or the refusal
      of the first row that is refused. */
  function Gather<T>(rows: seq<Result<T>>, n: nat): Result<seq<T>>
    requires n <= |rows|
  {
    if n == 0 then Ok([])
    else
      var prev := Gather(rows, n - 1);
      if prev.Err? then prev
      else
        match rows[n - 1]
        case Err(e) => Err(e)
        case Ok(a) => Ok(prev.value + [a])
  }

  /** The rows of a BED file, one per line. A line the reader never reaches may have
      incomplete exon lists and stands as a refusal here; Gather stops before it. */
  function BedRows(lines: seq<string>): (rows: seq<Result<Annotation>>)
    ensures |rows| == |lines|
    ensures forall i :: 0 <= i < |lines| && ExonListsComplete(lines[i]) ==> rows[i] == BedRow(lines[i])
  {
    seq(|lines|, i requires 0 <= i < |lines| => RowOf(lines[i]))
  }

  /** The row of a line whose exon lists are complete; a stand-in refusal otherwise. */
  function RowOf(line: string): (row: Result<Annotation>)
    ensures ExonListsComplete(line) ==> row == BedRow(line)
  {
    if ExonListsComplete(line) then BedRow(line) else Err(NotBed)
  }

  /** What ReadBED makes of a file. */
  function BedFile(lines: seq<string>): Result<seq<Annotation>>
  {
    Gather(BedRows(lines), |lines|)
  }

  /** The exon loop of ReadBED: the first NumExons entries, converted by atoi. */
  method ReadExons(items: seq<string>, numExons: int) returns (values: seq<int>)
    requires Iterations(numExons) <= |items|
    ensures values == ExonList(items, Iterations(numExons))
  {
    values := [];
    var i := 0;
    while i < numExons
      invariant 0 <= i <= Iterations(numExons) && values == ExonList(items, i)
    {
      values := values + [Atoi(items[i])];
      i := i + 1;
    }
  }

  /** One line of ReadBED's loop: the split, the two checks and the record. */
  method ReadBEDLine(line: string) returns (row: Result<Annotation>)
    requires ExonListsComplete(line)
    ensures row == BedRow(line)
  {
    var fields := StringSplit(line, '\t');
    if |fields| < 12 {
      return Err(NotBed);
    }
    if fields[5] != "+" {
      return Err(NegativeStrand);
    }
    var numExons := Atoi(fields[9]);
    var exonSizes := StringSplit(fields[10], ',');
    var exonStarts := StringSplit(fields[11], ',');
    var sizes := ReadExons(exonSizes, numExons);
    var starts := ReadExons(exonStarts, numExons);
    row := Ok(Annotation(fields[0], Atoi(fields[1]), Atoi(fields[2]), fields[3], numExons, sizes, starts));
  }

  /** ReadBED over the lines of the file; the first refused line ends the reading. */
  method ReadBED(lines: seq<string>) returns (r: Result<seq<Annotation>>)
    requires BedReadable(lines)
    ensures r == BedFile(lines)
  {
    ghost var rows := BedRows(lines);
    var annotations: seq<Annotation> := [];
    assert lines[0..] == lines;
    for n := 0 to |lines|
      invariant Gather(rows, n) == Ok(annotations) && BedReadable(lines[n..])
    {
      ReadableStep(lines, n);
      var row := ReadBEDLine(lines[n]);
      if row.Err? {
        BedStepRefused(lines, n, annotations);
        return Err(row.error);
      }
      BedStepAccepted(lines, n, annotations);
      annotations := annotations + [row.value];
    }
    r := Ok(annotations);
  }

  /** A file whose every line has complete exon lists can be read whatever its lines
      are: BedReadable asks no more than that. */
  lemma {:induction false} CompleteReadable(lines: seq<string>)
    requires forall i :: 0 <= i < |lines| ==> ExonListsComplete(lines[i])
    ensures BedReadable(lines)
    decreases |lines|
  {
    if lines != [] {
      assert forall i :: 0 <= i < |lines[1..]| ==> lines[1..][i] == lines[i + 1];
      CompleteReadable(lines[1..]);
    }
  }

  /** The line after a run of accepted lines is reached, so its exon lists are complete. */
  lemma LineReached(lines: seq<string>, n: nat)
    requires BedReadable(lines) && n < |lines| && forall k :: 0 <= k < n ==> Accepted(lines[k])
    ensures ExonListsComplete(lines[n])
  {
    assert lines[0..] == lines;
    ReachedFrom(lines, 0, n);
  }

  /** The same, for the lines from `m` on. */
  lemma {:induction false} ReachedFrom(lines: seq<string>, m: nat, n: nat)
    requires m <= n < |lines| && BedReadable(lines[m..])
    requires forall k :: m <= k < n ==> Accepted(lines[k])
    ensures ExonListsComplete(lines[n])
    decreases n - m
  {
    ReadableStep(lines, m);
    if m < n {
      ReachedFrom(lines, m + 1, n);
    }
  }

  /** The line at `n` is reached; if it is accepted, so is the rest of the file. */
  lemma ReadableStep(lines: seq<string>, n: nat)
    requires n < |lines| && BedReadable(lines[n..])
    ensures ExonListsComplete(lines[n])
    ensures Accepted(lines[n]) ==> BedReadable(lines[n + 1..])
  {
    assert lines[n..][0] == lines[n];
    assert lines[n..][1..] == lines[n + 1..];
  }

  /** A line whose row is a record is an accepted line with complete exon lists. */
  lemma RowAccepted(lines: seq<string>, k: nat)
    requires k < |lines| && BedRows(lines)[k].Ok?
    ensures Accepted(lines[k]) && ExonListsComplete(lines[k])
  {
  }

  /** A refused line of ReadBED decides the file's refusal. */
  lemma BedStepRefused(lines: seq<string>, n: nat, annotations: seq<Annotation>)
    requires n < |lines| && ExonListsComplete(lines[n]) && BedRow(lines[n]).Err?
    requires Gather(BedRows(lines), n) == Ok(annotations)
    ensures BedFile(lines) == Err(BedRow(lines[n]).error)
  {
    var rows := BedRows(lines);
    assert rows[n] == BedRow(lines[n]);
    FirstRefusal(rows, n, annotations);
  }

  /** An accepted line of ReadBED adds its record. */
  lemma BedStepAccepted(lines: seq<string>, n: nat, annotations: seq<Annotation>)
    requires n < |lines| && ExonListsComplete(lines[n]) && BedRow(lines[n]).Ok?
    requires Gather(BedRows(lines), n) == Ok(annotations)
    ensures Accepted(lines[n])
    ensures Gather(BedRows(lines), n + 1) == Ok(annotations + [BedRow(lines[n]).value])
  {
    var rows := BedRows(lines);
    assert rows[n] == BedRow(lines[n]);
    GatherStep(rows, n, annotations);
  }

  /** A refused row after accepted ones is the refusal of all rows. */
  lemma FirstRefusal<T>(rows: seq<Result<T>>, n: nat, values: seq<T>)
    requires n < |rows| && Gather(rows, n) == Ok(values) && rows[n].Err?
    ensures Gather(rows, |rows|) == Err(rows[n].error)
  {
    GatherStep(rows, n, values);
    RefusalStays(rows, n + 1, |rows|);
  }

  /** Gathering one more row: its refusal, or its record appended. */
  lemma GatherStep<T>(rows: seq<Result<T>>, n: nat, values: seq<T>)
    requires n < |rows| && Gather(rows, n) == Ok(values)
    ensures rows[n].Err? ==> Gather(rows, n + 1) == Err(rows[n].error)
    ensures rows[n].Ok? ==> Gather(rows, n + 1) == Ok(values + [rows[n].value])
  {
  }

  /** A refusal is final: later rows are not read. */
  lemma {:induction false} RefusalStays<T>(rows: seq<Result<T>>, n: nat, m: nat)
    requires n <= m <= |rows| && Gather(rows, n).Err?
    ensures Gather(rows, m) == Gather(rows, n)
    decreases m - n
  {
    if n < m {
      RefusalStays(rows, n + 1, m);
    }
  }

  /** The rows are gathered exactly when none is refused, and then into one record per
      row, in order. */
  lemma {:induction false} GatherAccepted<T>(rows: seq<Result<T>>, n: nat)
    requires n <= |rows|
    ensures Gather(rows, n).Ok? <==> forall i :: 0 <= i < n ==> rows[i].Ok?
    ensures Gather(rows, n).Ok? ==>
      |Gather(rows, n).value| == n && forall i :: 0 <= i < n ==> Gather(rows, n).value[i] == rows[i].value
  {
    if n > 0 {
      GatherAccepted(rows, n - 1);
    }
  }

  /** A refusal is that of the first refused row. */
  lemma {:induction false} GatherRefused<T>(rows: seq<Result<T>>, n: nat)
    requires n <= |rows| && Gather(rows, n).Err?
    ensures exists i :: 0 <= i < n && rows[i] == Err(Gather(rows, n).error) && forall k :: 0 <= k < i ==> rows[k].Ok?
  {
    if Gather(rows, n - 1).Err? {
      GatherRefused(rows, n - 1);
    } else {
      GatherAccepted(rows, n - 1);
    }
  }

  /** A BED file is read exactly when every line has 12 fields and a "+" strand, and it
      then gives one record per line, in order; otherwise the reason is that of the first
      line that is refused. */
  lemma BedAccepted(lines: seq<string>)
    requires BedReadable(lines)
    ensures BedFile(lines).Ok? <==> forall i :: 0 <= i < |lines| ==> Accepted(lines[i])
    ensures BedFile(lines).Ok? ==>
      |BedFile(lines).value| == |lines| &&
      forall i :: 0 <= i < |lines| ==> ExonListsComplete(lines[i]) && BedFile(lines).value[i] == BedRow(lines[i]).value
    ensures BedFile(lines).Err? ==>
      exists i :: 0 <= i < |lines| && !Accepted(lines[i]) && ExonListsComplete(lines[i]) &&
        BedRow(lines[i]) == Err(BedFile(lines).error) &&
        forall k :: 0 <= k < i ==> Accepted(lines[k])
  {
    var rows := BedRows(lines);
    GatherAccepted(rows, |lines|);
    if forall i :: 0 <= i < |lines| ==> Accepted(lines[i]) {
      forall i | 0 <= i < |lines|
        ensures ExonListsComplete(lines[i]) && rows[i].Ok?
      {
        LineReached(lines, i);
      }
    }
    if BedFile(lines).Err? {
      GatherRefused(rows, |lines|);
      var i :| 0 <= i < |lines| && rows[i] == Err(BedFile(lines).error) && forall k :: 0 <= k < i ==> rows[k].Ok?;
      forall k | 0 <= k < i
        ensures Accepted(lines[k])
      {
        RowAccepted(lines, k);
      }
      LineReached(lines, i);
    }
  }

  /** The record of an accepted line: fields 0 to 3 and 9 as read, and exactly the first
      NumExons exon sizes and starts. */
  lemma BedRowFields(line: string)
    requires ExonListsComplete(line) && BedRow(line).Ok?
    ensures var fields := Split(line, '\t');
      var a := BedRow(line).value;
      |fields| >= 12 && fields[5] == "+" &&
      a.chr == fields[0] && a.chrStart == Atoi(fields[1]) && a.chrEnd == Atoi(fields[2]) &&
      a.name == fields[3] && a.numExons == Atoi(fields[9]) &&
      |a.exonSizes| == Iterations(a.numExons) && |a.exonStarts| == Iterations(a.numExons) &&
      (forall i :: 0 <= i < |a.exonSizes| ==> a.exonSizes[i] == Atoi(Split(fields[10], ',')[i])) &&
      (forall i :: 0 <= i < |a.exonStarts| ==> a.exonStarts[i] == Atoi(Split(fields[11], ',')[i]))
  {
  }

  /** Every record of a file ReadBED accepts holds all the exons the annotator's loops
      visit. */
  lemma BedRecordsWellFormed(lines: seq<string>)
    requires BedReadable(lines) && BedFile(lines).Ok?
    ensures forall i :: 0 <= i < |BedFile(lines).value| ==> WellFormed(BedFile(lines).value[i])
  {
    BedAccepted(lines);
    forall i | 0 <= i < |lines|
      ensures WellFormed(BedFile(lines).value[i])
    {
      BedRowFields(lines[i]);
    }
  }

  /** The number of exons the loops of the annotator visit. */
  function ExonCount(a: Annotation): nat
  {
    Iterations(a.numExons)
  }

  /** The exon lists hold all the exons the loops visit. */
  predicate WellFormed(a: Annotation)
  {
    ExonCount(a) <= |a.exonSizes| && ExonCount(a) <= |a.exonStarts|
  }

  /** The gene length of the first `i` exons. */
  function Cum(a: Annotation, i: nat): int
    requires i <= |a.exonSizes|
  {
    if i == 0 then 0 else Cum(a, i - 1) + a.exonSizes[i - 1]
  }

  /** Gene position `g` falls in exon `i` when the exons are laid end to end. */
  predicate InExon(a: Annotation, g: int, i: nat)
    requires i < |a.exonSizes|
  {
    Cum(a, i) <= g < Cum(a, i) + a.exonSizes[i]
  }

  /** The first exon from `i` on that holds gene position `g`, or ExonCount if none does. */
  function FirstExon(a: Annotation, g: int, i: nat): (e: nat)
    requires WellFormed(a) && i <= ExonCount(a)
    ensures i <= e <= ExonCount(a)
    decreases ExonCount(a) - i
  {
    if i == ExonCount(a) then i
    else if InExon(a, g, i) then i
    else FirstExon(a, g, i + 1)
  }

  /** The chromosome position that GenePosToBase reads for gene position `g`: in the
      first exon that holds `g`, the exon's start plus the offset of `g` into it; when no
      exon holds `g`, the start of the last exon, or 0 for a record without exons. */
  function ChrPosition(a: Annotation, g: int): int
    requires WellFormed(a)
  {
    var e := FirstExon(a, g, 0);
    if e < ExonCount(a) then a.chrStart + a.exonStarts[e] + (g - Cum(a, e))
    else if ExonCount(a) > 0 then a.chrStart + a.exonStarts[ExonCount(a) - 1]
    else 0
  }

  /** FirstExon finds the first exon that holds `g`, and reports none only when no
      exon from `i` on holds it. */
  lemma {:induction false} FirstExonIsFirst(a: Annotation, g: int, i: nat)
    requires WellFormed(a) && i <= ExonCount(a)
    ensures var e := FirstExon(a, g, i);
      (e < ExonCount(a) ==> InExon(a, g, e)) &&
      (forall k :: i <= k < e ==> !InExon(a, g, k))
    decreases ExonCount(a) - i
  {
    if i < ExonCount(a) && !InExon(a, g, i) {
      FirstExonIsFirst(a, g, i + 1);
    }
  }

  /** GenePosToBase: the exon walk with its running chromosome position and gene
      position counter, stopping at the first exon that holds the gene position; the
      reference is read at the resulting position (NUL just past its end). */
  method GenePosToBase(genePos: int, ref: string, a: Annotation) returns (base: char)
    requires WellFormed(a) && 0 <= ChrPosition(a, genePos) <= |ref|
    ensures base == At(ref, ChrPosition(a, genePos))
  {
    FirstExonIsFirst(a, genePos, 0);
    var chrPos := 0;
    var genePosCounter := 0;
    var i := 0;
    while i < a.numExons
      invariant 0 <= i <= ExonCount(a) && genePosCounter == Cum(a, i)
      invariant chrPos == if i == 0 then 0 else a.chrStart + a.exonStarts[i - 1]
      invariant forall k :: 0 <= k < i ==> !InExon(a, genePos, k)
    {
      chrPos := a.chrStart + a.exonStarts[i];
      if genePos >= genePosCounter && genePos < genePosCounter + a.exonSizes[i] {
        chrPos := chrPos + (genePos - genePosCounter);
        assert FirstExon(a, genePos, 0) == i by {
          FirstExonStops(a, genePos, 0, i);
        }
        break;
      } else {
        genePosCounter := genePosCounter + a.exonSizes[i];
      }
      i := i + 1;
    }
    if i == ExonCount(a) {
      FirstExonNone(a, genePos, 0);
    }
    base := At(ref, chrPos);
  }

  lemma {:induction false} FirstExonStops(a: Annotation, g: int, i: nat, e: nat)
    requires WellFormed(a) && i <= e < ExonCount(a) && InExon(a, g, e)
    requires forall k :: i <= k < e ==> !InExon(a, g, k)
    ensures FirstExon(a, g, i) == e
    decreases e - i
  {
    if i < e {
      FirstExonStops(a, g, i + 1, e);
    }
  }

  lemma {:induction false} FirstExonNone(a: Annotation, g: int, i: nat)
    requires WellFormed(a) && i <= ExonCount(a)
    requires forall k :: i <= k < ExonCount(a) ==> !InExon(a, g, k)
    ensures FirstExon(a, g, i) == ExonCount(a)
    decreases ExonCount(a) - i
  {
    if i < ExonCount(a) {
      FirstExonNone(a, g, i + 1);
    }
  }

  /** No exon has a negative size. */
  predicate NonNegativeSizes(a: Annotation)
    requires WellFormed(a)
  {
    forall k :: 0 <= k < ExonCount(a) ==> a.exonSizes[k] >= 0
  }

  /** With sizes that are not negative, the running gene length never decreases. */
  lemma {:induction false} CumMonotone(a: Annotation, i: nat, j: nat)
    requires WellFormed(a) && NonNegativeSizes(a) && i <= j <= ExonCount(a)
    ensures Cum(a, i) <= Cum(a, j)
    decreases j - i
  {
    if i < j {
      CumMonotone(a, i, j - 1);
    }
  }

  /** The gene position of chromosome position `pos` in exon `j`: its offset into the
      exon plus the sizes of the exons before it. */
  function GenePosition(a: Annotation, pos: int, j: nat): int
    requires j < |a.exonSizes| && j < |a.exonStarts|
  {
    pos - a.exonStarts[j] - a.chrStart + Cum(a, j)
  }

  /** Chromosome position `pos` lies in exon `j` of the record. */
  predicate InChrExon(a: Annotation, pos: int, j: nat)
    requires j < |a.exonSizes| && j < |a.exonStarts|
  {
    a.chrStart + a.exonStarts[j] <= pos < a.chrStart + a.exonStarts[j] + a.exonSizes[j]
  }

  /** The gene position of a chromosome position in an exon maps back to that
      chromosome position, so the annotator's self-check never fires. */
  lemma GenePositionRoundTrip(a: Annotation, pos: int, j: nat)
    requires WellFormed(a) && NonNegativeSizes(a) && j < ExonCount(a) && InChrExon(a, pos, j)
    ensures ChrPosition(a, GenePosition(a, pos, j)) == pos
  {
    var g := GenePosition(a, pos, j);
    assert InExon(a, g, j);
    forall k | 0 <= k < j
      ensures !InExon(a, g, k)
    {
      CumMonotone(a, k + 1, j);
    }
    FirstExonStops(a, g, 0, j);
  }

  /** With sizes that are not negative, some exon holds gene position `g` exactly when
      `g` lies inside the gene. */
  lemma GenePositionCovered(a: Annotation, g: int)
    requires WellFormed(a) && NonNegativeSizes(a)
    ensures FirstExon(a, g, 0) < ExonCount(a) <==> 0 <= g < Cum(a, ExonCount(a))
  {
    FirstExonIsFirst(a, g, 0);
    var n := ExonCount(a);
    var e := FirstExon(a, g, 0);
    if e < n {
      CumMonotone(a, 0, e);
      CumMonotone(a, e + 1, n);
    } else if 0 <= g < Cum(a, n) {
      CoveringExon(a, g, n);
    }
  }

  /** A gene position inside the first `i` exons lies in one of them. */
  lemma {:induction false} CoveringExon(a: Annotation, g: int, i: nat)
    requires WellFormed(a) && NonNegativeSizes(a) && i <= ExonCount(a) && 0 <= g < Cum(a, i)
    ensures exists k :: 0 <= k < i && InExon(a, g, k)
  {
    if g >= Cum(a, i - 1) {
      assert InExon(a, g, i - 1);
    } else {
      CoveringExon(a, g, i - 1);
    }
  }

  /** The exon walk of the annotator's main loop: the offset into exon `j` plus the sizes
      of the exons before it. */
  method GenePositionOf(a: Annotation, pos: int, j: nat) returns (genePos: int)
    requires j < |a.exonSizes| && j < |a.exonStarts|
    ensures genePos == GenePosition(a, pos, j)
  {
    genePos := pos - a.exonStarts[j] - a.chrStart;
    for k := 0 to j
      invariant genePos == pos - a.exonStarts[j] - a.chrStart + Cum(a, k)
    {
      genePos := genePos + a.exonSizes[k];
    }
  }

  /** C's `/` on int: the quotient truncated toward zero. */
  function CDiv(n: int, d: int): int
    requires d > 0
  {
    if n >= 0 then n / d else -((-n) / d)
  }

  /** C's `%` on int: the remainder takes the sign of the dividend. */
  function CMod(n: int, d: int): int
    requires d > 0
  {
    n - d * CDiv(n, d)
  }

  /** For a gene position that is not negative, the codon number and the position in the
      codon are the Euclidean quotient and remainder by 3, and the codon starts at a
      multiple of three and covers the position. */
  lemma CodonArithmetic(g: int)
    requires g >= 0
    ensures 0 <= CMod(g, 3) < 3 && g == 3 * CDiv(g, 3) + CMod(g, 3)
    ensures g - CMod(g, 3) == 3 * CDiv(g, 3) && g - CMod(g, 3) <= g <= g - CMod(g, 3) + 2
  {
  }

  /** For any gene position, C's remainder by 3 lies strictly between -3 and 3, is
      negative only for a negative position, and with the quotient makes up the
      position. */
  lemma CodonPosition(g: int)
    ensures -3 < CMod(g, 3) < 3 && g == 3 * CDiv(g, 3) + CMod(g, 3)
    ensures CMod(g, 3) < 0 ==> g < 0
  {
  }

  /** For a negative gene position (possible only with a negative exon size) C's
      remainder is negative: position -1 is in codon 0 with codon position -1. */
  lemma CodonArithmeticNegative()
    ensures CDiv(-1, 3) == 0 && CMod(-1, 3) == -1
  {
  }
}
