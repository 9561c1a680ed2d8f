/** The variant annotator: every variant line (chromosome, 1-based position, alternate
    base, reference base) is checked against each gene model of its chromosome, and one
    row per such gene model reports the gene, the codon, the reference and alternate
    amino acids and whether the change is synonymous or the site four-fold degenerate. */
module Annotate {
  import opened Strings
  import opened Decimal
  import opened Codons
  import opened GeneModel

  /** A variant line's fields; the position is made 0-based as in BED. */
  datatype Variant = Variant(chr: string, pos: int, altBase: string, refBase: string)

  function ParseVariant(fields: seq<string>): Variant
    requires |fields| >= 4
  {
    Variant(fields[0], Atoi(fields[1]) - 1, fields[2], fields[3])
  }

  /** Why the annotator stops: a line with fewer than four fields, a gene model whose
      exon walk disagrees with the reference (the self-check), or a reference base that
      differs from the one the variant line gives. OutOfRange marks the point where the
      annotator would index a string outside its bounds, where its behaviour is
      undefined; the annotator's methods require that a run never gets there. */
  datatype VariantError = TooFewFields | AnnotationMismatch | InvalidReferenceBase(pos: int) | OutOfRange

  datatype Outcome<T> = Done(value: T) | Abort(error: VariantError)

  /** The annotation variables of the main loop. */
  datatype Fields = Fields(gene: string, codon: int, codonIntPos: int, refAA: char, altAA: char,
                           syn: int, fourfoldSyn: int, refCodon: string, altCodon: string)

  /** The values the variables start from and are reset to after every row. */
  const Unannotated := Fields("none", -1, -1, 'Z', 'Z', -1, -1, "NNN", "NNN")

  /** The output so far, and whether the annotator has stopped. */
  datatype Progress = Running | Stopped(error: VariantError)
  datatype Output = Output(rows: seq<string>, progress: Progress)

  /** The reference base at gene position `g`, as GenePosToBase reads it. */
  function GeneBase(a: Annotation, ref: string, g: int): char
    requires WellFormed(a) && 0 <= ChrPosition(a, g) <= |ref|
  {
    At(ref, ChrPosition(a, g))
  }

  /** The reference reads of one exon hit stay inside the reference: the variant
      position, the three bases of its codon and the self-check. */
  predicate CodonReadable(a: Annotation, ref: string, pos: int, g: int)
    requires WellFormed(a)
  {
    0 <= pos <= |ref| && CodonInReference(a, ref, g)
  }

  /** Gene position `g` and the three of its codon map into the reference. */
  predicate CodonInReference(a: Annotation, ref: string, g: int)
    requires WellFormed(a)
  {
    0 <= ChrPosition(a, g) <= |ref| &&
    0 <= ChrPosition(a, g - CMod(g, 3)) <= |ref| && 0 <= ChrPosition(a, g - CMod(g, 3) + 1) <= |ref| &&
    0 <= ChrPosition(a, g - CMod(g, 3) + 2) <= |ref|
  }

  /** Every gene model has the exon entries its loops visit, as every record ReadBED
      returns does. */
  predicate AllWellFormed(annotations: seq<Annotation>)
  {
    forall i :: 0 <= i < |annotations| ==> WellFormed(annotations[i])
  }

  /** The codon of gene position `g` read from a reference: the three bases from the
      start of the codon, at gene positions `g - g % 3` to `g - g % 3 + 2`. */
  function RefCodon(a: Annotation, ref: string, g: int): (c: string)
    requires WellFormed(a) && CodonInReference(a, ref, g)
    ensures |c| == 3
  {
    var start := g - CMod(g, 3);
    [GeneBase(a, ref, start), GeneBase(a, ref, start + 1), GeneBase(a, ref, start + 2)]
  }

  /** The reference loop of one exon hit from reference `k` on: every reference named
      like the variant's chromosome re-reads the codon, then must pass the self-check
      and show the variant line's reference base. All reads of a reference come before
      its two checks. */
  function RefCodonFrom(v: Variant, a: Annotation, refNames: seq<string>, refSeqs: seq<string>,
                        g: int, k: nat, rc: string): (r: Outcome<string>)
    requires |refNames| == |refSeqs| && k <= |refNames| && WellFormed(a) && |rc| == 3
    ensures r.Done? ==> |r.value| == 3
    decreases |refNames| - k
  {
    if k == |refNames| then Done(rc)
    else if v.chr != refNames[k] then RefCodonFrom(v, a, refNames, refSeqs, g, k + 1, rc)
    else
      var ref := refSeqs[k];
      if !CodonReadable(a, ref, v.pos, g) then Abort(OutOfRange)
      else if At(ref, v.pos) != GeneBase(a, ref, g) then Abort(AnnotationMismatch)
      else if At(ref, v.pos) != At(v.refBase, 0) then Abort(InvalidReferenceBase(v.pos))
      else RefCodonFrom(v, a, refNames, refSeqs, g, k + 1, RefCodon(a, ref, g))
  }

  /** Whether the first `n` of T, C, A, G placed at the codon position all translate to
      the reference amino acid. */
  predicate SynonymousUpTo(rc: string, p: nat, refAA: char, n: nat)
    requires p < |rc| && n <= 4
  {
    forall b :: 0 <= b < n ==> TranslateCodon(rc[p := CodonBases[b]], StandardCode()) == refAA
  }

  /** The variables after an exon hit at exon `j`. A negative position in the codon
      (a negative gene position, C's remainder keeping the sign) indexes the alternate
      codon outside its bounds. */
  function ExonFields(v: Variant, a: Annotation, refNames: seq<string>, refSeqs: seq<string>, j: nat, f: Fields): Outcome<Fields>
    requires |refNames| == |refSeqs| && WellFormed(a) && j < ExonCount(a) && InChrExon(a, v.pos, j)
    requires |f.refCodon| == 3
  {
    var g := GenePosition(a, v.pos, j);
    var p := CMod(g, 3);
    CodonPosition(g);
    match RefCodonFrom(v, a, refNames, refSeqs, g, 0, f.refCodon)
    case Abort(e) => Abort(e)
    case Done(rc) =>
      if p < 0 then Abort(OutOfRange)
      else
      var refAA := TranslateCodon(rc, StandardCode());
      var alt := rc[p := At(v.altBase, 0)];
      var altAA := TranslateCodon(alt, StandardCode());
      Done(Fields(a.name, CDiv(g, 3), p, refAA, altAA, if refAA == altAA then 1 else 0,
                  if SynonymousUpTo(rc, p, refAA, 4) then 1 else 0, rc, alt))
  }

  /** The exon loop of one gene model from exon `j` on. No exon stops the loop, so the
      last exon that holds the variant decides the variables. */
  function ExonsFrom(v: Variant, a: Annotation, refNames: seq<string>, refSeqs: seq<string>, j: nat, f: Fields): (r: Outcome<Fields>)
    requires |refNames| == |refSeqs| && WellFormed(a)
    requires a.chr == v.chr && a.chrStart <= v.pos < a.chrEnd && j <= ExonCount(a) && |f.refCodon| == 3
    ensures r.Done? ==> |r.value.refCodon| == 3
    decreases ExonCount(a) - j
  {
    if j == ExonCount(a) then Done(f)
    else if !InChrExon(a, v.pos, j) then ExonsFrom(v, a, refNames, refSeqs, j + 1, f)
    else
      match ExonFields(v, a, refNames, refSeqs, j, f)
      case Abort(e) => Abort(e)
      case Done(f') => ExonsFrom(v, a, refNames, refSeqs, j + 1, f')
  }

  /** The variables written for a gene model of the variant's chromosome. */
  function AnnotationFields(v: Variant, a: Annotation, refNames: seq<string>, refSeqs: seq<string>): Outcome<Fields>
    requires |refNames| == |refSeqs| && WellFormed(a) && a.chr == v.chr
  {
    if a.chrStart <= v.pos < a.chrEnd then ExonsFrom(v, a, refNames, refSeqs, 0, Unannotated)
    else Done(Unannotated)
  }

  /** One output row: the variant line, then the gene, the 1-based codon, the two amino
      acids and the two classifications, tab-separated. */
  function RowText(line: string, f: Fields): string
  {
    line + "\t" + FieldsText(f)
  }

  /** The annotation columns of a row. */
  function FieldsText(f: Fields): string
  {
    f.gene + "\t" + IntText(f.codon + 1) + "\t" + [f.refAA] + "\t" + [f.altAA] + "\t" +
    IntText(f.syn) + "\t" + IntText(f.fourfoldSyn)
  }

  /** What the walk of each gene model gives a variant line: the row of a model of its
      chromosome, or why the walk aborted; the other models write no row, and their
      entry is never read. */
  function AnnotationResults(line: string, v: Variant, annotations: seq<Annotation>, refNames: seq<string>, refSeqs: seq<string>)
    : (rs: seq<Outcome<string>>)
    requires |refNames| == |refSeqs| && AllWellFormed(annotations)
    ensures |rs| == |annotations|
    ensures forall i :: 0 <= i < |annotations| && annotations[i].chr == v.chr ==>
      rs[i] == RowOf(line, AnnotationFields(v, annotations[i], refNames, refSeqs))
  {
    seq(|annotations|, i requires 0 <= i < |annotations| && WellFormed(annotations[i]) =>
      if annotations[i].chr == v.chr then RowOf(line, AnnotationFields(v, annotations[i], refNames, refSeqs)) else Done([]))
  }

  /** The row written for the variables of a gene model, or why its walk aborted. */
  function RowOf(line: string, r: Outcome<Fields>): Outcome<string>
  {
    match r
    case Done(f) => Done(RowText(line, f))
    case Abort(e) => Abort(e)
  }

  /** The output of a variant line against the first `i` gene models, given what each
      model's walk gives: a row for every model of chromosome `chr` until a walk aborts. */
  function Rows(chr: string, annotations: seq<Annotation>, rs: seq<Outcome<string>>, i: nat): Output
    requires i <= |annotations| == |rs|
  {
    if i == 0 then Output([], Running)
    else
      var prev := Rows(chr, annotations, rs, i - 1);
      if prev.progress.Stopped? || annotations[i - 1].chr != chr then prev
      else
        match rs[i - 1]
        case Abort(e) => Output(prev.rows, Stopped(e))
        case Done(row) => Output(prev.rows + [row], Running)
  }

  /** The output of one variant against all gene models. */
  function VariantRows(line: string, v: Variant, annotations: seq<Annotation>, refNames: seq<string>, refSeqs: seq<string>): Output
    requires |refNames| == |refSeqs| && AllWellFormed(annotations)
  {
    Rows(v.chr, annotations, AnnotationResults(line, v, annotations, refNames, refSeqs), |annotations|)
  }

  /** The output of one variant line. */
  function LineOutput(line: string, annotations: seq<Annotation>, refNames: seq<string>, refSeqs: seq<string>): Output
    requires |refNames| == |refSeqs| && AllWellFormed(annotations)
  {
    var fields := Split(line, '\t');
    if |fields| < 4 then Output([], Stopped(TooFewFields))
    else VariantRows(line, ParseVariant(fields), annotations, refNames, refSeqs)
  }

  /** The output of each variant line on its own. */
  function LineOutputs(lines: seq<string>, annotations: seq<Annotation>, refNames: seq<string>, refSeqs: seq<string>): (outs: seq<Output>)
    requires |refNames| == |refSeqs|
    requires AllWellFormed(annotations)
    ensures |outs| == |lines| && forall i :: 0 <= i < |lines| ==> outs[i] == LineOutput(lines[i], annotations, refNames, refSeqs)
  {
    seq(|lines|, i requires 0 <= i < |lines| =>
      LineOutput(lines[i], annotations, refNames, refSeqs))
  }

  /** The output of the first `n` lines: their rows in order, up to and including the
      first line that stops the annotator. */
  function Collect(outs: seq<Output>, n: nat): Output
    requires n <= |outs|
  {
    if n == 0 then Output([], Running)
    else
      var prev := Collect(outs, n - 1);
      if prev.progress.Stopped? then prev
      else Output(prev.rows + outs[n - 1].rows, outs[n - 1].progress)
  }

  /** The output of the annotator on a variant file. */
  function FileOutput(lines: seq<string>, annotations: seq<Annotation>, refNames: seq<string>, refSeqs: seq<string>): Output
    requires |refNames| == |refSeqs|
    requires AllWellFormed(annotations)
  {
    Collect(LineOutputs(lines, annotations, refNames, refSeqs), |lines|)
  }

  // ---------------------------------------------------------------------------------
  // The loops of the main function.

  /** The codon loop: the three bases of the codon read from the reference one gene
      position at a time, each through GenePosToBase. */
  method ReadCodon(a: Annotation, ref: string, start: int, rc: string) returns (codon: string)
    requires WellFormed(a) && |rc| == 3
    requires 0 <= ChrPosition(a, start) <= |ref| && 0 <= ChrPosition(a, start + 1) <= |ref|
    requires 0 <= ChrPosition(a, start + 2) <= |ref|
    ensures codon == [GeneBase(a, ref, start), GeneBase(a, ref, start + 1), GeneBase(a, ref, start + 2)]
  {
    codon := rc;
    for m := 0 to 3
      invariant |codon| == 3 && forall m' :: 0 <= m' < m ==> codon[m'] == GeneBase(a, ref, start + m')
    {
      var b := GenePosToBase(start + m, ref, a);
      codon := codon[m := b];
    }
  }

  /** The reference loop of one exon hit. */
  method RefLoop(v: Variant, a: Annotation, refNames: seq<string>, refSeqs: seq<string>, g: int, rc: string)
    returns (out: Outcome<string>)
    requires |refNames| == |refSeqs| && WellFormed(a) && |rc| == 3
    requires RefCodonFrom(v, a, refNames, refSeqs, g, 0, rc) != Abort(OutOfRange)
    ensures out == RefCodonFrom(v, a, refNames, refSeqs, g, 0, rc)
  {
    var refCodon := rc;
    for k := 0 to |refNames|
      invariant |refCodon| == 3
      invariant RefCodonFrom(v, a, refNames, refSeqs, g, 0, rc) == RefCodonFrom(v, a, refNames, refSeqs, g, k, refCodon)
    {
      if v.chr == refNames[k] {
        assert CodonReadable(a, refSeqs[k], v.pos, g);
        var geneCodonStart := g - CMod(g, 3);
        refCodon := ReadCodon(a, refSeqs[k], geneCodonStart, refCodon);
        var check := GenePosToBase(g, refSeqs[k], a);
        if At(refSeqs[k], v.pos) != check {
          return Abort(AnnotationMismatch);
        }
        if At(refSeqs[k], v.pos) != At(v.refBase, 0) {
          return Abort(InvalidReferenceBase(v.pos));
        }
      }
    }
    out := Done(refCodon);
  }

  /** The four-fold loop: T, C, A and G in turn at the codon position. */
  method FourfoldLoop(refCodon: string, p: nat, refAA: char, table: map<Codon, char>) returns (fourfoldSyn: int)
    requires p < |refCodon| && table == StandardCode()
    ensures fourfoldSyn == if SynonymousUpTo(refCodon, p, refAA, 4) then 1 else 0
  {
    var possibleCodonSeq := refCodon;
    fourfoldSyn := 1;
    for k := 0 to 4
      invariant |possibleCodonSeq| == |refCodon|
      invariant k > 0 ==> possibleCodonSeq == refCodon[p := CodonBases[k - 1]]
      invariant k == 0 ==> possibleCodonSeq == refCodon
      invariant fourfoldSyn == if SynonymousUpTo(refCodon, p, refAA, k) then 1 else 0
    {
      possibleCodonSeq := possibleCodonSeq[p := CodonBases[k]];
      assert possibleCodonSeq == refCodon[p := CodonBases[k]];
      if TranslateCodon(possibleCodonSeq, table) != refAA {
        fourfoldSyn := 0;
      }
    }
  }

  /** The body of the exon loop for an exon that holds the variant. */
  method ExonHit(v: Variant, a: Annotation, refNames: seq<string>, refSeqs: seq<string>, table: map<Codon, char>, j: nat, f: Fields)
    returns (out: Outcome<Fields>)
    requires |refNames| == |refSeqs| && WellFormed(a) && j < ExonCount(a) && InChrExon(a, v.pos, j)
    requires |f.refCodon| == 3 && ExonFields(v, a, refNames, refSeqs, j, f) != Abort(OutOfRange)
    requires table == StandardCode()
    ensures out == ExonFields(v, a, refNames, refSeqs, j, f)
  {
    var gene := a.name;
    var genePos := GenePositionOf(a, v.pos, j);
    var codon := CDiv(genePos, 3);
    var codonIntPos := CMod(genePos, 3);
    CodonPosition(genePos);
    var r := RefLoop(v, a, refNames, refSeqs, genePos, f.refCodon);
    if r.Abort? {
      return Abort(r.error);
    }
    assert codonIntPos >= 0;
    var refCodonSeq := r.value;
    var refAA := TranslateCodon(refCodonSeq, table);
    var altCodonSeq := refCodonSeq;
    altCodonSeq := altCodonSeq[codonIntPos := At(v.altBase, 0)];
    var altAA := TranslateCodon(altCodonSeq, table);
    var syn := if refAA == altAA then 1 else 0;
    var fourfoldSyn := FourfoldLoop(refCodonSeq, codonIntPos, refAA, table);
    out := Done(Fields(gene, codon, codonIntPos, refAA, altAA, syn, fourfoldSyn, refCodonSeq, altCodonSeq));
  }

  /** The exon loop of one gene model that spans the variant. */
  method ExonLoop(v: Variant, a: Annotation, refNames: seq<string>, refSeqs: seq<string>, table: map<Codon, char>, f: Fields)
    returns (out: Outcome<Fields>)
    requires |refNames| == |refSeqs| && WellFormed(a)
    requires a.chr == v.chr && a.chrStart <= v.pos < a.chrEnd && |f.refCodon| == 3
    requires ExonsFrom(v, a, refNames, refSeqs, 0, f) != Abort(OutOfRange)
    requires table == StandardCode()
    ensures out == ExonsFrom(v, a, refNames, refSeqs, 0, f)
  {
    var current := f;
    var j := 0;
    while j < a.numExons
      invariant 0 <= j <= ExonCount(a) && |current.refCodon| == 3
      invariant ExonsFrom(v, a, refNames, refSeqs, 0, f) == ExonsFrom(v, a, refNames, refSeqs, j, current)
    {
      if a.chrStart + a.exonStarts[j] <= v.pos < a.chrStart + a.exonStarts[j] + a.exonSizes[j] {
        ExonsFromStep(v, a, refNames, refSeqs, j, current);
        var r := ExonHit(v, a, refNames, refSeqs, table, j, current);
        if r.Abort? {
          return r;
        }
        current := r.value;
      }
      j := j + 1;
    }
    out := Done(current);
  }

  /** The loop over the gene models for one variant line. */
  method AnnotateLine(line: string, annotations: seq<Annotation>, refNames: seq<string>, refSeqs: seq<string>, table: map<Codon, char>)
    returns (rows: seq<string>, progress: Progress)
    requires |refNames| == |refSeqs| && AllWellFormed(annotations)
    requires LineOutput(line, annotations, refNames, refSeqs).progress != Stopped(OutOfRange)
    requires table == StandardCode()
    ensures Output(rows, progress) == LineOutput(line, annotations, refNames, refSeqs)
  {
    var fields := StringSplit(line, '\t');
    if |fields| < 4 {
      return [], Stopped(TooFewFields);
    }
    var v := Variant(fields[0], Atoi(fields[1]) - 1, fields[2], fields[3]);
    assert v == ParseVariant(fields);
    ghost var rs := AnnotationResults(line, v, annotations, refNames, refSeqs);
    assert LineOutput(line, annotations, refNames, refSeqs) == Rows(v.chr, annotations, rs, |annotations|);
    rows, progress := ModelLoop(line, v, annotations, refNames, refSeqs, table, rs);
  }

  /** The gene model loop of AnnotateLine, for the variant `v` of `line`. */
  method ModelLoop(line: string, v: Variant, annotations: seq<Annotation>, refNames: seq<string>, refSeqs: seq<string>,
                   table: map<Codon, char>, ghost rs: seq<Outcome<string>>)
    returns (rows: seq<string>, progress: Progress)
    requires |refNames| == |refSeqs| && AllWellFormed(annotations) && table == StandardCode()
    requires |rs| == |annotations|
    requires forall i :: 0 <= i < |annotations| && annotations[i].chr == v.chr ==>
      rs[i] == RowOf(line, AnnotationFields(v, annotations[i], refNames, refSeqs))
    requires Rows(v.chr, annotations, rs, |annotations|).progress != Stopped(OutOfRange)
    ensures Output(rows, progress) == Rows(v.chr, annotations, rs, |annotations|)
  {
    rows := [];
    var f := Unannotated;
    for i := 0 to |annotations|
      invariant f == Unannotated
      invariant Rows(v.chr, annotations, rs, i) == Output(rows, Running)
    {
      RowsStep(v.chr, annotations, rs, i);
      if v.chr != annotations[i].chr {
        continue;
      }
      RowsReach(v.chr, annotations, rs, i);
      var r := AnnotateModel(line, v, annotations[i], refNames, refSeqs, table, f);
      assert rs[i] == r;
      if r.Abort? {
        progress := Stopped(r.error);
        RowsStopStays(v.chr, annotations, rs, i + 1, |annotations|);
        return;
      }
      rows := rows + [r.value];
      f := Unannotated;
    }
    progress := Running;
  }

  /** The body of the loop over the gene models for a model of the variant's
      chromosome: the exon walk when the model spans the variant, then the row. */
  method AnnotateModel(line: string, v: Variant, a: Annotation, refNames: seq<string>, refSeqs: seq<string>,
                       table: map<Codon, char>, f: Fields) returns (r: Outcome<string>)
    requires |refNames| == |refSeqs| && WellFormed(a) && a.chr == v.chr
    requires AnnotationFields(v, a, refNames, refSeqs) != Abort(OutOfRange)
    requires table == StandardCode() && f == Unannotated
    ensures r == RowOf(line, AnnotationFields(v, a, refNames, refSeqs))
  {
    var current := f;
    if v.pos >= a.chrStart && v.pos < a.chrEnd {
      var walk := ExonLoop(v, a, refNames, refSeqs, table, current);
      if walk.Abort? {
        return Abort(walk.error);
      }
      current := walk.value;
    }
    r := Done(RowText(line, current));
  }

  /** One more gene model in Rows. */
  lemma RowsStep(chr: string, annotations: seq<Annotation>, rs: seq<Outcome<string>>, i: nat)
    requires i < |annotations| == |rs| && Rows(chr, annotations, rs, i).progress.Running?
    ensures var prev := Rows(chr, annotations, rs, i);
      Rows(chr, annotations, rs, i + 1) ==
        if annotations[i].chr != chr then prev
        else if rs[i].Abort? then Output(prev.rows, Stopped(rs[i].error))
        else Output(prev.rows + [rs[i].value], Running)
  {
  }

  /** A gene model the loop reaches does not give OutOfRange when the line's output
      is not that stop. */
  lemma RowsReach(chr: string, annotations: seq<Annotation>, rs: seq<Outcome<string>>, i: nat)
    requires i < |annotations| == |rs| && annotations[i].chr == chr
    requires Rows(chr, annotations, rs, i).progress.Running?
    requires Rows(chr, annotations, rs, |annotations|).progress != Stopped(OutOfRange)
    ensures rs[i] != Abort(OutOfRange)
  {
    RowsStep(chr, annotations, rs, i);
    if rs[i] == Abort(OutOfRange) {
      RowsStopStays(chr, annotations, rs, i + 1, |annotations|);
    }
  }

  /** A stop within a line is final. */
  lemma {:induction false} RowsStopStays(chr: string, annotations: seq<Annotation>, rs: seq<Outcome<string>>, i: nat, n: nat)
    requires i <= n <= |annotations| == |rs| && Rows(chr, annotations, rs, i).progress.Stopped?
    ensures Rows(chr, annotations, rs, n) == Rows(chr, annotations, rs, i)
    decreases n
  {
    if i < n {
      RowsStopStays(chr, annotations, rs, i, n - 1);
    }
  }

  /** The main loop over the variant lines, with the codon table built first. */
  method AnnotateVariants(lines: seq<string>, annotations: seq<Annotation>, refNames: seq<string>, refSeqs: seq<string>)
    returns (rows: seq<string>, progress: Progress)
    requires |refNames| == |refSeqs| && AllWellFormed(annotations)
    requires FileOutput(lines, annotations, refNames, refSeqs).progress != Stopped(OutOfRange)
    ensures Output(rows, progress) == FileOutput(lines, annotations, refNames, refSeqs)
  {
    var table := InitializeCodonTable();
    ghost var outs := LineOutputs(lines, annotations, refNames, refSeqs);
    rows := [];
    for n := 0 to |lines|
      invariant Collect(outs, n) == Output(rows, Running)
    {
      CollectReach(outs, n);
      var lineRows, lineProgress := AnnotateLine(lines[n], annotations, refNames, refSeqs, table);
      assert outs[n] == Output(lineRows, lineProgress);
      rows := rows + lineRows;
      if lineProgress.Stopped? {
        progress := lineProgress;
        CollectStopStays(outs, n + 1, |lines|);
        return;
      }
    }
    progress := Running;
  }

  /** A line the loop reaches does not give OutOfRange when the file's output is not
      that stop. */
  lemma CollectReach(outs: seq<Output>, n: nat)
    requires n < |outs| && Collect(outs, n).progress.Running?
    requires Collect(outs, |outs|).progress != Stopped(OutOfRange)
    ensures outs[n].progress != Stopped(OutOfRange)
  {
    if outs[n].progress == Stopped(OutOfRange) {
      CollectStopStays(outs, n + 1, |outs|);
    }
  }

  /** A stop is final. */
  lemma {:induction false} CollectStopStays(outs: seq<Output>, n: nat, m: nat)
    requires n <= m <= |outs| && Collect(outs, n).progress.Stopped?
    ensures Collect(outs, m) == Collect(outs, n)
    decreases m
  {
    if n < m {
      CollectStopStays(outs, n, m - 1);
    }
  }

  // ---------------------------------------------------------------------------------
  // What the output means.

  /** The number of gene models of chromosome `chr` among the first `i`. */
  function SameChromosome(annotations: seq<Annotation>, chr: string, i: nat): nat
    requires i <= |annotations|
  {
    if i == 0 then 0 else SameChromosome(annotations, chr, i - 1) + (if annotations[i - 1].chr == chr then 1 else 0)
  }

  /** A variant line that does not stop the annotator gets one row per gene model of its
      chromosome, in order, and the annotator stops exactly when the walk of some gene
      model of the chromosome aborts. */
  lemma {:induction false} RowsShape(chr: string, annotations: seq<Annotation>, rs: seq<Outcome<string>>, i: nat)
    requires i <= |annotations| == |rs|
    ensures var out := Rows(chr, annotations, rs, i);
      (out.progress.Running? ==> |out.rows| == SameChromosome(annotations, chr, i)) &&
      (out.progress.Running? <==> forall k :: 0 <= k < i && annotations[k].chr == chr ==> rs[k].Done?)
  {
    if i > 0 {
      RowsShape(chr, annotations, rs, i - 1);
    }
  }

  /** Every row comes from some gene model's walk. */
  lemma {:induction false} RowsFrom(chr: string, annotations: seq<Annotation>, rs: seq<Outcome<string>>, i: nat, pre: string)
    requires i <= |annotations| == |rs|
    requires forall k :: 0 <= k < i && annotations[k].chr == chr && rs[k].Done? ==> |pre| < |rs[k].value| && rs[k].value[..|pre|] == pre
    ensures forall r :: r in Rows(chr, annotations, rs, i).rows ==> |pre| < |r| && r[..|pre|] == pre
  {
    if i > 0 {
      RowsFrom(chr, annotations, rs, i - 1, pre);
    }
  }

  /** RowsShape for the gene models' own walks; every row starts with the variant line
      and a tab. */
  lemma VariantRowsShape(line: string, v: Variant, annotations: seq<Annotation>, refNames: seq<string>, refSeqs: seq<string>)
    requires |refNames| == |refSeqs| && AllWellFormed(annotations)
    ensures var out := VariantRows(line, v, annotations, refNames, refSeqs);
      (out.progress.Running? ==> |out.rows| == SameChromosome(annotations, v.chr, |annotations|)) &&
      (forall r :: r in out.rows ==> |line| + 1 < |r| && r[..|line| + 1] == line + "\t") &&
      (out.progress.Running? <==>
        forall k :: 0 <= k < |annotations| && annotations[k].chr == v.chr ==> AnnotationFields(v, annotations[k], refNames, refSeqs).Done?)
  {
    var rs := AnnotationResults(line, v, annotations, refNames, refSeqs);
    RowsShape(v.chr, annotations, rs, |annotations|);
    forall k | 0 <= k < |annotations| && annotations[k].chr == v.chr && rs[k].Done?
      ensures |line + "\t"| < |rs[k].value| && rs[k].value[..|line| + 1] == line + "\t"
    {
      RowPrefix(line, AnnotationFields(v, annotations[k], refNames, refSeqs).value);
    }
    RowsFrom(v.chr, annotations, rs, |annotations|, line + "\t");
  }

  /** A row starts with its variant line and a tab. */
  lemma RowPrefix(line: string, f: Fields)
    ensures var r := RowText(line, f); |line| + 1 < |r| && r[..|line| + 1] == line + "\t"
  {
    assert |FieldsText(f)| > 0;
  }

  /** The row of a gene model that spans none of its exons over the variant, or does not
      span the variant at all. */
  lemma UnannotatedRow(line: string)
    ensures RowText(line, Unannotated) == line + "\tnone\t0\tZ\tZ\t-1\t-1"
  {
    assert IntText(0) == "0" && IntText(-1) == "-1";
    assert FieldsText(Unannotated) == "none\t0\tZ\tZ\t-1\t-1";
  }

  /** Without an exon over the variant the exon walk leaves the variables alone. */
  lemma {:induction false} ExonsFromNoHit(v: Variant, a: Annotation, refNames: seq<string>, refSeqs: seq<string>, j: nat, f: Fields)
    requires |refNames| == |refSeqs| && WellFormed(a)
    requires a.chr == v.chr && a.chrStart <= v.pos < a.chrEnd && j <= ExonCount(a) && |f.refCodon| == 3
    requires forall e :: j <= e < ExonCount(a) ==> !InChrExon(a, v.pos, e)
    ensures ExonsFrom(v, a, refNames, refSeqs, j, f) == Done(f)
    decreases ExonCount(a) - j
  {
    if j < ExonCount(a) {
      ExonsFromNoHit(v, a, refNames, refSeqs, j + 1, f);
    }
  }

  /** The last exon over the variant decides the gene and the gene position. */
  lemma {:induction false} ExonsFromLastWins(v: Variant, a: Annotation, refNames: seq<string>, refSeqs: seq<string>, j: nat, f: Fields, e: nat)
    requires |refNames| == |refSeqs| && WellFormed(a)
    requires a.chr == v.chr && a.chrStart <= v.pos < a.chrEnd && j <= e < ExonCount(a) && |f.refCodon| == 3
    requires InChrExon(a, v.pos, e) && forall e' :: e < e' < ExonCount(a) ==> !InChrExon(a, v.pos, e')
    ensures var r := ExonsFrom(v, a, refNames, refSeqs, j, f);
      r.Done? ==> r.value.gene == a.name && 3 * r.value.codon + r.value.codonIntPos == GenePosition(a, v.pos, e)
    decreases ExonCount(a) - j
  {
    ExonsFromStep(v, a, refNames, refSeqs, j, f);
    if j < e {
      if InChrExon(a, v.pos, j) {
        var r := ExonFields(v, a, refNames, refSeqs, j, f);
        if r.Done? {
          ExonsFromLastWins(v, a, refNames, refSeqs, j + 1, r.value, e);
        }
      } else {
        ExonsFromLastWins(v, a, refNames, refSeqs, j + 1, f, e);
      }
    } else {
      var r := ExonFields(v, a, refNames, refSeqs, j, f);
      if r.Done? {
        ExonsFromNoHit(v, a, refNames, refSeqs, j + 1, r.value);
        ExonFieldsMeaning(v, a, refNames, refSeqs, j, f);
      }
    }
  }

  /** One exon of the walk. */
  lemma ExonsFromStep(v: Variant, a: Annotation, refNames: seq<string>, refSeqs: seq<string>, j: nat, f: Fields)
    requires |refNames| == |refSeqs| && WellFormed(a)
    requires a.chr == v.chr && a.chrStart <= v.pos < a.chrEnd && j < ExonCount(a) && |f.refCodon| == 3
    ensures !InChrExon(a, v.pos, j) ==> ExonsFrom(v, a, refNames, refSeqs, j, f) == ExonsFrom(v, a, refNames, refSeqs, j + 1, f)
    ensures InChrExon(a, v.pos, j) ==>
      var r := ExonFields(v, a, refNames, refSeqs, j, f);
      ExonsFrom(v, a, refNames, refSeqs, j, f) == if r.Abort? then r else ExonsFrom(v, a, refNames, refSeqs, j + 1, r.value)
  {
  }

  /** A gene model that spans the variant with no exon over it writes the row of
      UnannotatedRow. */
  lemma IntronFields(v: Variant, a: Annotation, refNames: seq<string>, refSeqs: seq<string>)
    requires |refNames| == |refSeqs| && WellFormed(a) && a.chr == v.chr
    requires a.chrStart <= v.pos < a.chrEnd ==> forall e :: 0 <= e < ExonCount(a) ==> !InChrExon(a, v.pos, e)
    ensures AnnotationFields(v, a, refNames, refSeqs) == Done(Unannotated)
  {
    if a.chrStart <= v.pos < a.chrEnd {
      ExonsFromNoHit(v, a, refNames, refSeqs, 0, Unannotated);
    }
  }

  /** The variables of an exon hit: the gene, the codon number and the position in the
      codon that make up the gene position, the alternate codon that differs from the
      reference codon in the alternate base at that position only, the synonymous flag
      that is set exactly when the amino acids agree, and the four-fold flag that is set
      exactly when every base at the position gives the reference amino acid; a four-fold
      site with an alternate base among T, C, A and G is synonymous. After a reference
      loop that passes, the hit reaches OutOfRange exactly when the position in the codon
      is negative. */
  lemma ExonFieldsMeaning(v: Variant, a: Annotation, refNames: seq<string>, refSeqs: seq<string>, j: nat, f: Fields)
    requires |refNames| == |refSeqs| && WellFormed(a) && j < ExonCount(a) && InChrExon(a, v.pos, j)
    requires |f.refCodon| == 3
    ensures var g, r := GenePosition(a, v.pos, j), ExonFields(v, a, refNames, refSeqs, j, f);
      (RefCodonFrom(v, a, refNames, refSeqs, g, 0, f.refCodon).Done? ==> (r == Abort(OutOfRange) <==> CMod(g, 3) < 0)) &&
      (r.Done? ==>
        var h := r.value;
        h.gene == a.name && 0 <= h.codonIntPos < 3 && 3 * h.codon + h.codonIntPos == g &&
        |h.refCodon| == 3 && |h.altCodon| == 3 && h.altCodon[h.codonIntPos] == At(v.altBase, 0) &&
        (forall m :: 0 <= m < 3 && m != h.codonIntPos ==> h.altCodon[m] == h.refCodon[m]) &&
        h.refAA == TranslateCodon(h.refCodon, StandardCode()) && h.altAA == TranslateCodon(h.altCodon, StandardCode()) &&
        (h.syn == 1 <==> h.refAA == h.altAA) && (h.syn == 0 <==> h.refAA != h.altAA) &&
        (h.fourfoldSyn == 1 <==> forall b :: b in CodonBases ==> TranslateCodon(h.refCodon[h.codonIntPos := b], StandardCode()) == h.refAA) &&
        (h.fourfoldSyn == 0 <==> h.fourfoldSyn != 1) &&
        (h.fourfoldSyn == 1 && At(v.altBase, 0) in CodonBases ==> h.syn == 1))
  {
    var g := GenePosition(a, v.pos, j);
    CodonPosition(g);
    var r := ExonFields(v, a, refNames, refSeqs, j, f);
    if r.Done? {
      var h := r.value;
      var p: nat := h.codonIntPos;
      if SynonymousUpTo(h.refCodon, p, h.refAA, 4) {
        forall b | b in CodonBases
          ensures TranslateCodon(h.refCodon[p := b], StandardCode()) == h.refAA
        {
          assert CodonBases[BaseIndex(b)] == b;
        }
      } else {
        var b :| 0 <= b < 4 && TranslateCodon(h.refCodon[p := CodonBases[b]], StandardCode()) != h.refAA;
        assert CodonBases[b] in CodonBases;
      }
    }
  }

  /** The reference loop succeeds exactly when every reference of the chromosome can be
      read at the hit, passes the self-check and shows the variant line's reference
      base; the codon is then that of the last such reference, or the one it started
      with when there is none. OutOfRange comes from a reference of the chromosome that
      cannot be read there. */
  lemma {:induction false} RefCodonChecks(v: Variant, a: Annotation, refNames: seq<string>, refSeqs: seq<string>,
                                          g: int, k: nat, rc: string)
    requires |refNames| == |refSeqs| && k <= |refNames| && WellFormed(a) && |rc| == 3
    ensures var r := RefCodonFrom(v, a, refNames, refSeqs, g, k, rc);
      (r.Done? <==> forall m :: k <= m < |refNames| && refNames[m] == v.chr ==>
        CodonReadable(a, refSeqs[m], v.pos, g) &&
        At(refSeqs[m], v.pos) == GeneBase(a, refSeqs[m], g) && At(refSeqs[m], v.pos) == At(v.refBase, 0)) &&
      ((forall m :: k <= m < |refNames| ==> refNames[m] != v.chr) ==> r == Done(rc)) &&
      (forall m :: (k <= m < |refNames| && refNames[m] == v.chr && CodonReadable(a, refSeqs[m], v.pos, g) &&
                    forall m' :: m < m' < |refNames| ==> refNames[m'] != v.chr) ==>
          r.Done? ==> r.value == RefCodon(a, refSeqs[m], g)) &&
      (r == Abort(OutOfRange) ==>
        exists m :: k <= m < |refNames| && refNames[m] == v.chr && !CodonReadable(a, refSeqs[m], v.pos, g))
    decreases |refNames| - k
  {
    if k < |refNames| {
      if v.chr != refNames[k] {
        RefCodonChecks(v, a, refNames, refSeqs, g, k + 1, rc);
      } else if CodonReadable(a, refSeqs[k], v.pos, g) {
        RefCodonChecks(v, a, refNames, refSeqs, g, k + 1, RefCodon(a, refSeqs[k], g));
      }
    }
  }

  /** A reference of the chromosome whose base at the variant differs from the variant
      line's reference base stops the annotator at that gene model. */
  lemma WrongReferenceBaseStops(v: Variant, a: Annotation, refNames: seq<string>, refSeqs: seq<string>, j: nat, f: Fields, m: nat)
    requires |refNames| == |refSeqs| && WellFormed(a) && j < ExonCount(a) && InChrExon(a, v.pos, j)
    requires |f.refCodon| == 3
    requires m < |refNames| && refNames[m] == v.chr && 0 <= v.pos <= |refSeqs[m]|
    requires At(refSeqs[m], v.pos) != At(v.refBase, 0)
    ensures ExonFields(v, a, refNames, refSeqs, j, f).Abort?
  {
    RefCodonChecks(v, a, refNames, refSeqs, GenePosition(a, v.pos, j), 0, f.refCodon);
  }

  /** With exon sizes that are not negative the self-check never fires: the gene position
      of the variant maps back to the variant. A stop is then always a reference base
      that differs from the variant line's, or a read out of range. */
  lemma SelfCheckHolds(v: Variant, a: Annotation, refNames: seq<string>, refSeqs: seq<string>, j: nat, f: Fields)
    requires |refNames| == |refSeqs| && WellFormed(a) && NonNegativeSizes(a) && j < ExonCount(a) && InChrExon(a, v.pos, j)
    requires |f.refCodon| == 3
    ensures ExonFields(v, a, refNames, refSeqs, j, f) != Abort(AnnotationMismatch)
    ensures ExonFields(v, a, refNames, refSeqs, j, f).Abort? ==>
      ExonFields(v, a, refNames, refSeqs, j, f) in {Abort(InvalidReferenceBase(v.pos)), Abort(OutOfRange)}
  {
    var g := GenePosition(a, v.pos, j);
    GenePositionRoundTrip(a, v.pos, j);
    NoMismatchFrom(v, a, refNames, refSeqs, g, 0, f.refCodon);
  }

  lemma {:induction false} NoMismatchFrom(v: Variant, a: Annotation, refNames: seq<string>, refSeqs: seq<string>,
                                          g: int, k: nat, rc: string)
    requires |refNames| == |refSeqs| && k <= |refNames| && WellFormed(a)
    requires |rc| == 3 && ChrPosition(a, g) == v.pos
    ensures var r := RefCodonFrom(v, a, refNames, refSeqs, g, k, rc);
      r.Abort? ==> r in {Abort(InvalidReferenceBase(v.pos)), Abort(OutOfRange)}
    decreases |refNames| - k
  {
    if k < |refNames| {
      if v.chr != refNames[k] {
        NoMismatchFrom(v, a, refNames, refSeqs, g, k + 1, rc);
      } else if CodonReadable(a, refSeqs[k], v.pos, g) {
        NoMismatchFrom(v, a, refNames, refSeqs, g, k + 1, RefCodon(a, refSeqs[k], g));
      }
    }
  }

  /** The annotator runs to the end of the file exactly when no line stops it, and its
      rows are those of the lines in order. */
  lemma {:induction false} CollectRunning(outs: seq<Output>, n: nat)
    requires n <= |outs|
    ensures Collect(outs, n).progress.Running? <==> forall i :: 0 <= i < n ==> outs[i].progress.Running?
    ensures Collect(outs, n).progress.Running? ==> Collect(outs, n).rows == RowsOf(outs, n)
  {
    if n > 0 {
      CollectRunning(outs, n - 1);
    }
  }

  /** The rows of the first `n` outputs, one after the other. */
  function RowsOf(outs: seq<Output>, n: nat): seq<string>
    requires n <= |outs|
  {
    if n == 0 then [] else RowsOf(outs, n - 1) + outs[n - 1].rows
  }

  /** A line with fewer than four fields stops the annotator with no row for it. */
  lemma ShortLineStops(line: string, annotations: seq<Annotation>, refNames: seq<string>, refSeqs: seq<string>)
    requires |refNames| == |refSeqs| && AllWellFormed(annotations) && |Split(line, '\t')| < 4
    ensures LineOutput(line, annotations, refNames, refSeqs) == Output([], Stopped(TooFewFields))
  {
  }
}
