# parallel-evolution read-processing tools, modelled in Dafny

This project models the three C++ tools of parallel-evolution that turn aligned
sequencing reads into the tables used downstream:

- **SummarizeBAM** (the base tally). It reads a multi-sequence FASTA reference and a
  SAM alignment stream. It drops unmapped, secondary, off-reference, low-mapping-quality
  and indel-carrying records. For every remaining base that aligns to the reference,
  passes the base-quality threshold and lies inside the clip-and-trim window, it counts
  the base, its quality and its read position in a (chromosome, position, base) table.
  It then writes one row per reference position and base (A, C, G, T), and optionally a
  consensus FASTA wrapped every 70 bases.
- **AnnotateVariants**. It reads a BED12 gene model (plus-strand genes only) and a
  reference, and builds the standard genetic code. For every variant line (chromosome,
  1-based position, alternate base, reference base) it finds the exon that holds the
  variant and computes the gene position, codon number and codon offset. It reads the
  reference codon through the exon layout, checks the reference base and translates the
  reference and alternate codons. It then decides whether the change is synonymous and
  whether the site is fourfold synonymous, and writes one annotated row per annotation
  on the variant's chromosome.
- **CountHaplotypes**. It reads 1-based query sites and a SAM stream sorted by read
  name, and groups consecutive records with the same name (read pairs). It drops every
  group in which a record is unmapped, secondary, on another chromosome, below the
  mapping-quality threshold or carries an indel. For each kept group it votes, per query
  site, the base every covering read shows at that site. The votes are folded into one
  character (concordant calls keep the base, discordant ones give `N`). A row of the
  sites is written when some vote landed on an `N`.

The shared helpers are modelled once and imported:
- `StringSplit`, which splits on runs of a delimiter and never yields an empty field;
- C `atoi`;
- `ExpandCIGAR`, which writes one tag per base the read consumes.

## Layout

| file | module | models |
|---|---|---|
| strings.dfy | Strings | `StringSplit` and the string algebra it needs: Split is the inverse of Join on proper fields |
| decimal.dfy | Decimal | C `atoi` (leading blanks, sign, digit prefix) and decimal printing, with their round trip |
| cigar.dfy | Cigar | `ExpandCIGAR` and the I/D/P scan, plus the expansion of a rendered CIGAR |
| consensus.dfy | Consensus | the first-maximum consensus vote and the 70-column line wrapping |
| tally.dfy | Tally | the SummarizeBAM record filters, soft-clip counts, trim window, tally table (`class BaseTally`) and both reports |
| fasta.dfy | Fasta | `ReadMultiFasta`, and reading a written FASTA file back |
| codons.dfy | Codons | `InitializeCodonTable` and `TranslateCodon` |
| genemodel.dfy | GeneModel | `ReadBED`, `GenePosToBase` and the gene-position arithmetic of the annotator |
| annotate.dfy | Annotate | the AnnotateVariants per-variant loop |
| haplotypes.dfy | Haplotypes | `ReadSAM`, the query and header handling, the group state machine, the filter and the vote in place on the haplotype array |

### Representation choices

- Files are sequences of lines.
- Output files are strings, or row datatypes when the output holds floating-point values.
- A run that stops with an error is a `Result`/`Outcome` value or a `completed` flag,
  next to the text written so far.
- `std::string` indexing at the string's length reads the terminating NUL (`At`), as
  in C++.
- `std::map` lookups of a missing key read the default value (zero counts, or `'\0'`
  in the codon table).
- Where the source compares an `int` with a `size_t`, the unsigned conversion is
  written out.

### Where the code and its documentation differ

The model follows the code:
- AnnotateVariants writes one row for every annotation on the variant's chromosome,
  including the "none" row of an annotation that does not hold the variant. It writes
  no row when no annotation is on that chromosome.
- Within one annotation the last exon that holds the variant decides the row, because
  the exon loop has no `break`.
- `TranslateCodon` of three characters that are not all of T, C, A and G reads the
  codon table's default `'\0'`, not `'X'`. `'X'` appears only for a codon that is not
  three characters long.
- `GenePosToBase` of a gene position outside every exon reads the start of the last
  exon, or position 0 of a record without exons. It is not an out-of-range indicator.
- CountHaplotypes compares the raw quality character (a signed `char`) with the
  threshold, without subtracting 33. SummarizeBAM subtracts 33.
- CountHaplotypes' fold lets a third vote revive a site that two discordant votes set
  to `N`.
- CountHaplotypes' coverage test in the filter loop only skips to the next record, so
  it decides nothing.
- The first SAM record closes the empty group whose current read name is "". Names are
  compared as C strings, up to the first NUL. The last group of the file is never
  evaluated, because the loop only evaluates a group when a record with a new name
  arrives.
- SummarizeBAM only prints a message when an expanded CIGAR is not as long as the read,
  and goes on. CountHaplotypes stops on the same condition.
- `ReadMultiFasta` drops the lines before the first header (the first header resets the
  open sequence without closing it). A file with no header yields no name and one
  sequence.
- SummarizeBAM's trim window compares against `Read.size() - RightClip - RIGHTTRIM`
  computed in unsigned arithmetic. When the trim exceeds the read, the bound wraps
  around and every index passes (`Tally.WindowWraps`).

## Model

| member | source | states |
|---|---|---|
| Strings.StringSplit | scripts/TallyBaseFrequencies/src/SummarizeBAM.cpp:525-549 | the loop (skip delimiters, collect a field, keep it only when non-empty) returns exactly Split(s, c) |
| Strings.SplitFieldsProper | scripts/TallyBaseFrequencies/src/SummarizeBAM.cpp:525-549 | every field of a split is non-empty and free of the delimiter |
| Strings.SplitConcat | scripts/TallyBaseFrequencies/src/SummarizeBAM.cpp:525-549 | the fields of a split, concatenated, are the input with every delimiter removed (no character is lost or reordered) |
| Strings.SplitJoin | scripts/TallyBaseFrequencies/src/SummarizeBAM.cpp:525-549 | splitting the join of non-empty, delimiter-free fields gives the fields back |
| Strings.SplitLayout | scripts/TallyBaseFrequencies/src/SummarizeBAM.cpp:538-546 | runs of delimiters of any length before, between and after the fields all collapse: the split is the fields |
| Decimal.AtoiIntText | scripts/CountHaplotypes/src/CountHaplotypes.cpp:98 | atoi reads back every integer written in decimal, negative ones included |
| Decimal.AtoiNatText | scripts/CountHaplotypes/src/CountHaplotypes.cpp:509 | atoi reads back every natural number written in decimal, the run lengths of a CIGAR string included |
| Cigar.ExpandCIGAR | scripts/TallyBaseFrequencies/src/SummarizeBAM.cpp:556-586 | the loop returns Expanded(cigar): every character that is not an operation letter joins the pending count; an M/I/S/=/X letter appends as many copies of itself as atoi of the count, reduced to 32 bits; an N/D/H/P letter drops the count |
| Cigar.ExpandRun | scripts/TallyBaseFrequencies/src/SummarizeBAM.cpp:569-583 | one run `<n><op>` expands to n copies of op for the read-consuming operations and to nothing for the others |
| Cigar.ExpandRender | scripts/TallyBaseFrequencies/src/SummarizeBAM.cpp:556-586 | a CIGAR string written from runs expands to the read footprint: each consuming operation repeated by its length |
| Cigar.ExpandedLength | scripts/TallyBaseFrequencies/src/SummarizeBAM.cpp:159-164 | the expansion of a CIGAR string is as long as the sum of its M, I, S, = and X lengths, the read length the tool checks it against |
| Cigar.ExpandedTags | scripts/TallyBaseFrequencies/src/SummarizeBAM.cpp:556-586 | every character of an expansion is one of M, I, S, =, X (or NUL, which strchr also finds) |
| Cigar.ExpandExample | scripts/TallyBaseFrequencies/src/SummarizeBAM.cpp:555 | 1S5M4S expands to SMMMMMSSSS |
| Cigar.CountIndelOperations | scripts/TallyBaseFrequencies/src/SummarizeBAM.cpp:167-174 | the scan counts exactly the CIGAR characters strchr finds in "IDP" |
| Consensus.LeaderAfterIsFirstMaximum | scripts/TallyBaseFrequencies/src/SummarizeBAM.cpp:312-318 | the scan over A, C, G, T keeps N unless some count beats N's, and then keeps the first base of largest count |
| Consensus.ConsensusBaseIsFirstMaximum | scripts/TallyBaseFrequencies/src/SummarizeBAM.cpp:312-318 | the consensus is N exactly when no base count exceeds the N count; otherwise it is the first base with the maximal count |
| Consensus.WrappedSnoc | scripts/TallyBaseFrequencies/src/SummarizeBAM.cpp:319-323 | writing one more base adds it, followed by a line break when the position is a multiple of 70 |
| Consensus.WrappedLength | scripts/TallyBaseFrequencies/src/SummarizeBAM.cpp:319-323 | the wrapped text of n bases has n + n / 70 characters |
| Consensus.WrappedContents | scripts/TallyBaseFrequencies/src/SummarizeBAM.cpp:319-323 | removing the line breaks from the wrapped text gives the sequence back |
| Tally.LeadingSoftClip | scripts/TallyBaseFrequencies/src/SummarizeBAM.cpp:184-193 | the left clip is the length of the maximal run of S at the start of the expansion |
| Tally.TrailingSoftClip | scripts/TallyBaseFrequencies/src/SummarizeBAM.cpp:194-201 | the right clip is the length of the maximal run of S at the end of the expansion |
| Tally.LeftClip | scripts/TallyBaseFrequencies/src/SummarizeBAM.cpp:184-193 | the counting loop with its break returns the left soft clip |
| Tally.RightClip | scripts/TallyBaseFrequencies/src/SummarizeBAM.cpp:194-201 | the backward counting loop with its break returns the right soft clip |
| Tally.LeadingUnique | scripts/TallyBaseFrequencies/src/SummarizeBAM.cpp:184-193 | the left clip is the only count that is all S and followed by a non-S |
| Tally.TrailingUnique | scripts/TallyBaseFrequencies/src/SummarizeBAM.cpp:194-201 | the right clip is the only count that is all S and preceded by a non-S |
| Tally.ClipsOfAllSoft | scripts/TallyBaseFrequencies/src/SummarizeBAM.cpp:184-201 | both clips equal the read length exactly when the whole expansion is soft-clipped |
| Tally.AlignedConsecutive | scripts/TallyBaseFrequencies/src/SummarizeBAM.cpp:207-231 | later on-reference bases map to later reference positions, one position per base with nothing aligned in between |
| Tally.WindowExact | scripts/TallyBaseFrequencies/src/SummarizeBAM.cpp:213-215 | without wrap-around the unsigned window test is exactly left clip + left trim <= i < length - right clip - right trim |
| Tally.WindowWraps | scripts/TallyBaseFrequencies/src/SummarizeBAM.cpp:213-215 | with a right trim longer than the read, the unsigned bound wraps and both indices of a 2-base read pass |
| Tally.ReadCallsExactly | scripts/TallyBaseFrequencies/src/SummarizeBAM.cpp:207-231 | a read contributes a tally for every index that is on the reference, above the quality threshold and in the window, and for no other |
| Tally.ClippedTailQuality | scripts/TallyBaseFrequencies/src/SummarizeBAM.cpp:209-213 | a record whose soft-clipped tail has no quality characters still meets the loop's need: quality is read only at on-reference tags |
| Tally.ReadCallsBounds | scripts/TallyBaseFrequencies/src/SummarizeBAM.cpp:207-231 | every tally of a read has a quality above the threshold and a position on the read's chromosome inside its aligned span |
| Tally.SummaryCounts | scripts/TallyBaseFrequencies/src/SummarizeBAM.cpp:216-228 | each table entry holds the number, total quality and total read position of exactly the tallies of its chromosome, position and base |
| Tally.CoverageIsSumOfCounts | scripts/TallyBaseFrequencies/src/SummarizeBAM.cpp:216-217 | the coverage of a position is the number of tallied bases there, and the count of a base is its multiplicity among them |
| Tally.OffsetMonotone | scripts/TallyBaseFrequencies/src/SummarizeBAM.cpp:256-259 | the genomic position runs on across sequences: a later sequence starts after every position of an earlier one |
| Tally.SequenceRowsAt | scripts/TallyBaseFrequencies/src/SummarizeBAM.cpp:258-290 | the rows of one sequence are four per position, row r for position r / 4 and base r % 4 |
| Tally.ReportLength | scripts/TallyBaseFrequencies/src/SummarizeBAM.cpp:256-292 | the report has four rows per reference position |
| Tally.ReportShape | scripts/TallyBaseFrequencies/src/SummarizeBAM.cpp:256-292 | row r carries genomic position r / 4 + 1 and base A, C, G, T in turn |
| Tally.ReportAt | scripts/TallyBaseFrequencies/src/SummarizeBAM.cpp:257-290 | the row of sequence i', position j and base k is at index 4 * (offset + j) + k and reports that sequence's name, j + 1, the reference base and the table entry |
| Tally.ReportCounts | scripts/TallyBaseFrequencies/src/SummarizeBAM.cpp:261-289 | a row reports the number of its tallies, and the mean quality and mean read position over them, or 0 and 0 when there is none |
| Tally.ConsensusSequenceContents | scripts/TallyBaseFrequencies/src/SummarizeBAM.cpp:311-319 | the consensus has one base per reference position, each the position's vote and one of N, A, C, G, T |
| Tally.ConsensusUnwrapped | scripts/TallyBaseFrequencies/src/SummarizeBAM.cpp:319-323 | the written consensus lines, joined, are the consensus sequence |
| Tally.BaseTally.constructor | scripts/TallyBaseFrequencies/src/SummarizeBAM.cpp:109-124 | an empty table (every entry zero) and an indel counter of zero |
| Tally.BaseTally.AddCall | scripts/TallyBaseFrequencies/src/SummarizeBAM.cpp:216-228 | one tally increments the coverage and the entry's count, quality sum and read-position sum, keeping the table equal to the summary of all tallies |
| Tally.BaseTally.TallyIndex | scripts/TallyBaseFrequencies/src/SummarizeBAM.cpp:209-230 | one read index adds its tally exactly when it is tallied |
| Tally.BaseTally.TallyRead | scripts/TallyBaseFrequencies/src/SummarizeBAM.cpp:184-232 | the loop over a read adds exactly that read's tallies, in read order |
| Tally.BaseTally.AddRecord | scripts/TallyBaseFrequencies/src/SummarizeBAM.cpp:139-233 | a record adds its tallies only when it is counted; the indel counter grows by its I/D/P characters whenever the record is mapped and primary |
| Tally.BaseTally.ProcessLine | scripts/TallyBaseFrequencies/src/SummarizeBAM.cpp:134-233 | one SAM line, split at tabs, updates the table and the indel counter as its record does |
| Tally.BaseTally.TallyLines | scripts/TallyBaseFrequencies/src/SummarizeBAM.cpp:131-235 | after the SAM file the table is the summary of all lines' tallies and the indel counter their sum |
| Tally.BaseTally.PositionRows | scripts/TallyBaseFrequencies/src/SummarizeBAM.cpp:260-290 | the four rows of one position, in A, C, G, T order |
| Tally.BaseTally.SummaryRows | scripts/TallyBaseFrequencies/src/SummarizeBAM.cpp:256-292 | the nested loops write the whole report (the shape proved in ReportShape and ReportAt) |
| Tally.BaseTally.MajorityBase | scripts/TallyBaseFrequencies/src/SummarizeBAM.cpp:312-318 | the loop returns the position's consensus vote (first maximum over A, C, G, T against N) |
| Tally.BaseTally.WrappedConsensus | scripts/TallyBaseFrequencies/src/SummarizeBAM.cpp:311-325 | the loop writes the consensus bases with a break after every 70th |
| Tally.BaseTally.ConsensusText | scripts/TallyBaseFrequencies/src/SummarizeBAM.cpp:309-326 | the consensus FASTA: per sequence a header, the wrapped consensus and a final line break |
| Fasta.ReadMultiFasta | scripts/TallyBaseFrequencies/src/SummarizeBAM.cpp:489-509 | the loop returns the names and sequences of the line-by-line reader, with the open sequence closed at the end |
| Fasta.ReadLinesCounts | scripts/TallyBaseFrequencies/src/SummarizeBAM.cpp:494-506 | there is one name per header line, and every header but the first closes a sequence |
| Fasta.FastaCounts | scripts/TallyBaseFrequencies/src/SummarizeBAM.cpp:494-508 | the reader returns one sequence per name, and a single sequence for a file without headers |
| Fasta.HeaderName | scripts/TallyBaseFrequencies/src/SummarizeBAM.cpp:502-503 | the name of a header `>name` is name, for a name without spaces or '>' |
| Fasta.ReadBody | scripts/TallyBaseFrequencies/src/SummarizeBAM.cpp:506 | lines that are not headers extend the open sequence by their concatenation |
| Fasta.ReadRecords | scripts/TallyBaseFrequencies/src/SummarizeBAM.cpp:494-507 | after the lines of some records the reader holds all their names, the sequences of all but the last, and the last one open |
| Fasta.FastaRoundTrip | scripts/TallyBaseFrequencies/src/SummarizeBAM.cpp:489-509 | reading the lines of FASTA records gives back their names and their concatenated sequence lines |
| Codons.InitializeCodonTable | scripts/AnnotateVariants/src/AnnotateVariants.cpp:544-560 | the triple loop fills all 64 codons over T, C, A, G, and only those, with their standard amino acid |
| Codons.StandardTableIsCode | scripts/AnnotateVariants/src/AnnotateVariants.cpp:544-560 | any complete table is the standard code map |
| Codons.StandardLookup | scripts/AnnotateVariants/src/AnnotateVariants.cpp:567-575 | with the standard table a codon over T, C, A, G translates to the character of its enumeration index, and any other three characters to NUL |
| Codons.TranslateIsX | scripts/AnnotateVariants/src/AnnotateVariants.cpp:567-575 | the translation is X exactly when the codon is not three characters long |
| Codons.TranslateExamples | scripts/AnnotateVariants/src/AnnotateVariants.cpp:547-548 | TTT is F, TAA is a stop, ATG is M, NNN reads NUL |
| GeneModel.ExonList | scripts/AnnotateVariants/src/AnnotateVariants.cpp:518-521 | the first n entries of a comma-separated list, each read by atoi |
| GeneModel.ReadExons | scripts/AnnotateVariants/src/AnnotateVariants.cpp:518-521 | the loop reads NumExons entries, none when NumExons is not positive |
| GeneModel.ReadBEDLine | scripts/AnnotateVariants/src/AnnotateVariants.cpp:496-528 | a line is refused with fewer than 12 fields or a strand other than "+", and read into an annotation otherwise |
| GeneModel.ReadBED | scripts/AnnotateVariants/src/AnnotateVariants.cpp:494-529 | the loop stops at the first refused line, otherwise returns one annotation per line; it needs complete exon lists only on the lines it reaches |
| GeneModel.ReadableStep | scripts/AnnotateVariants/src/AnnotateVariants.cpp:496-528 | the line the loop reaches has complete exon lists, and when it is accepted so does every line the loop reaches next |
| GeneModel.CompleteReadable | scripts/AnnotateVariants/src/AnnotateVariants.cpp:518-521 | a file whose every line has complete exon lists meets what the loop needs |
| GeneModel.BedAccepted | scripts/AnnotateVariants/src/AnnotateVariants.cpp:494-529 | the file is accepted exactly when every line has 12 fields and strand "+", holding then each line's annotation in order; a refusal is that of the first line without them |
| GeneModel.BedRowFields | scripts/AnnotateVariants/src/AnnotateVariants.cpp:499-523 | an accepted line has at least 12 fields and strand "+", with chromosome, start, end, name, exon count and exactly that many exon sizes and starts read from their fields |
| GeneModel.RefusalStays | scripts/AnnotateVariants/src/AnnotateVariants.cpp:525-528 | once a line is refused, later lines change nothing |
| GeneModel.BedRecordsWellFormed | scripts/AnnotateVariants/src/AnnotateVariants.cpp:518-521 | every record of an accepted file holds NumExons exon sizes and starts, all the exon loops visit |
| GeneModel.FirstExonIsFirst | scripts/AnnotateVariants/src/AnnotateVariants.cpp:586-599 | the exon the search stops at holds the gene position, and no earlier exon does |
| GeneModel.GenePosToBase | scripts/AnnotateVariants/src/AnnotateVariants.cpp:581-601 | the loop with its break reads the reference at the chromosome position of the first exon holding the gene position (the fallback otherwise) |
| GeneModel.GenePositionOf | scripts/AnnotateVariants/src/AnnotateVariants.cpp:178-182 | the offset into exon j plus the sizes of the exons before it |
| GeneModel.GenePositionRoundTrip | scripts/AnnotateVariants/src/AnnotateVariants.cpp:581-601 | the chromosome position of a variant's gene position is the variant position: GenePosToBase inverts the gene-position computation |
| GeneModel.GenePositionCovered | scripts/AnnotateVariants/src/AnnotateVariants.cpp:586-599 | some exon holds a gene position exactly when it lies between 0 and the total exon length |
| GeneModel.CodonArithmetic | scripts/AnnotateVariants/src/AnnotateVariants.cpp:183-184 | for a non-negative gene position, codon and offset are quotient and remainder by 3, and the codon starts at position - offset |
| GeneModel.CodonPosition | scripts/AnnotateVariants/src/AnnotateVariants.cpp:183-184 | C's truncating division and remainder by 3 recompose the gene position, with a remainder between -2 and 2 that is negative only for a negative position |
| GeneModel.CodonArithmeticNegative | scripts/AnnotateVariants/src/AnnotateVariants.cpp:183-184 | C division truncates: gene position -1 gives codon 0 and offset -1 |
| Annotate.ReadCodon | scripts/AnnotateVariants/src/AnnotateVariants.cpp:191-195 | the codon is the reference bases at the three gene positions from the codon start |
| Annotate.RefLoop | scripts/AnnotateVariants/src/AnnotateVariants.cpp:187-214 | the loop over the references returns the reference-check outcome for the variant, for a run that does not read a reference outside its bounds |
| Annotate.FourfoldLoop | scripts/AnnotateVariants/src/AnnotateVariants.cpp:228-235 | the site is fourfold synonymous exactly when all four bases at the codon offset translate to the reference amino acid |
| Annotate.ExonHit | scripts/AnnotateVariants/src/AnnotateVariants.cpp:174-235 | an exon holding the variant yields the fields of that exon, or the reference check's error, when it reads no string out of bounds |
| Annotate.ExonLoop | scripts/AnnotateVariants/src/AnnotateVariants.cpp:167-237 | the exon loop yields the fields of the last exon holding the variant, or the error of the exon that stops it, when no exon it reaches reads out of bounds |
| Annotate.AnnotateModel | scripts/AnnotateVariants/src/AnnotateVariants.cpp:159-252 | one annotation on the variant's chromosome yields its row or the error that stops the run, when it reads nothing out of bounds |
| Annotate.AnnotateLine | scripts/AnnotateVariants/src/AnnotateVariants.cpp:130-264 | one variant line yields the rows of its annotations, stopping at a short line or a failed check; only the annotations reached before the stop need in-bounds reads |
| Annotate.ModelLoop | scripts/AnnotateVariants/src/AnnotateVariants.cpp:158-264 | the loop over the gene models writes the rows of the models up to the first stop |
| Annotate.RowsReach | scripts/AnnotateVariants/src/AnnotateVariants.cpp:158-212 | a gene model the loop reaches, while the line goes on, reads nothing out of bounds when the line does not end with OutOfRange |
| Annotate.AnnotateVariants | scripts/AnnotateVariants/src/AnnotateVariants.cpp:127-266 | the file yields every line's rows in order, down to the first error; only the lines reached before it need in-bounds reads |
| Annotate.CollectReach | scripts/AnnotateVariants/src/AnnotateVariants.cpp:127-136 | a line the loop reaches reads nothing out of bounds when the file does not end with OutOfRange |
| Annotate.RowsStopStays | scripts/AnnotateVariants/src/AnnotateVariants.cpp:199-212 | an error inside the annotation loop ends the line: later annotations add nothing |
| Annotate.CollectStopStays | scripts/AnnotateVariants/src/AnnotateVariants.cpp:133-136 | an error ends the run: later lines add nothing |
| Annotate.CollectRunning | scripts/AnnotateVariants/src/AnnotateVariants.cpp:127-266 | the run completes exactly when every line completes, and then lists the lines' rows in order |
| Annotate.ShortLineStops | scripts/AnnotateVariants/src/AnnotateVariants.cpp:133-136 | a line with fewer than 4 fields writes nothing and stops the run |
| Annotate.VariantRowsShape | scripts/AnnotateVariants/src/AnnotateVariants.cpp:158-252 | a completed variant gets one row per annotation on its chromosome, each starting with the variant line and a tab; it completes exactly when every such annotation does |
| Annotate.RowPrefix | scripts/AnnotateVariants/src/AnnotateVariants.cpp:250-252 | a row starts with the variant line and a tab |
| Annotate.UnannotatedRow | scripts/AnnotateVariants/src/AnnotateVariants.cpp:149-157 | an annotation that does not hold the variant writes `none 0 Z Z -1 -1` after the line |
| Annotate.IntronFields | scripts/AnnotateVariants/src/AnnotateVariants.cpp:162-172 | a variant outside the gene span, or in no exon, gets the unannotated fields |
| Annotate.ExonsFromNoHit | scripts/AnnotateVariants/src/AnnotateVariants.cpp:167-172 | exons that do not hold the variant leave the fields unchanged |
| Annotate.ExonsFromLastWins | scripts/AnnotateVariants/src/AnnotateVariants.cpp:167-184 | the gene, codon and offset are those of the last exon holding the variant |
| Annotate.ExonFieldsMeaning | scripts/AnnotateVariants/src/AnnotateVariants.cpp:174-235 | after a passing reference check the hit reads out of bounds exactly when the offset is negative (a negative gene position, written at a negative index); otherwise: gene name; 3 * codon + offset is the gene position with 0 <= offset < 3; the alternate codon differs from the reference codon only at the offset, where it has the alternate base; both translate with the standard code; syn is 1 exactly when the amino acids agree; fourfold is 1 exactly when every base at the offset keeps the amino acid (and then an A/C/G/T change is synonymous) |
| Annotate.RefCodonChecks | scripts/AnnotateVariants/src/AnnotateVariants.cpp:187-214 | the check passes exactly when every reference of the chromosome can be read at the variant and its codon, and has the variant base equal to its GenePosToBase read and to the line's reference base; the codon is then that of the last such reference; an out-of-bounds stop comes from a reference that cannot be read |
| Annotate.WrongReferenceBaseStops | scripts/AnnotateVariants/src/AnnotateVariants.cpp:209-212 | a reference base that differs from the line's, at a variant position inside the reference, stops the run |
| Annotate.SelfCheckHolds | scripts/AnnotateVariants/src/AnnotateVariants.cpp:199-204 | for exon sizes that are not negative the self-check never fires: the only possible stops are the invalid reference base and an out-of-bounds read |
| Annotate.NoMismatchFrom | scripts/AnnotateVariants/src/AnnotateVariants.cpp:199-204 | when the gene position maps back to the variant position the reference loop can only stop on the reference base or an out-of-bounds read |
| Haplotypes.ReadRecord | scripts/CountHaplotypes/src/CountHaplotypes.cpp:529-551 | ReadSAM keeps the fields at their columns, position and mapping quality minus one |
| Haplotypes.SamLineRoundTrip | scripts/CountHaplotypes/src/CountHaplotypes.cpp:529-551 | ReadSAM reads back every field of a record written as a SAM line |
| Haplotypes.ReadQueries | scripts/CountHaplotypes/src/CountHaplotypes.cpp:97-99 | each query line gives its atoi value minus one, in order |
| Haplotypes.HeaderLine | scripts/CountHaplotypes/src/CountHaplotypes.cpp:123-130 | the header lists the 1-based sites, tab-separated, then a newline; nothing for no sites |
| Haplotypes.HeaderRoundTrip | scripts/CountHaplotypes/src/CountHaplotypes.cpp:123-130 | the header ends in a newline, and before it splits at tabs into the sites' decimal texts, which atoi reads back as the 1-based sites |
| Haplotypes.HasIndel | scripts/CountHaplotypes/src/CountHaplotypes.cpp:185-192 | a CIGAR is flagged exactly when strchr finds one of its characters in "IDP" |
| Haplotypes.FilterGroup | scripts/CountHaplotypes/src/CountHaplotypes.cpp:159-202 | a group is parsed exactly when no record is unmapped, secondary, off the chromosome, below the mapping quality or carries an indel |
| Haplotypes.ExpandGroup | scripts/CountHaplotypes/src/CountHaplotypes.cpp:227-234 | the expansions of a group, with failure exactly when one is not as long as its sequence |
| Haplotypes.VoteBase | scripts/CountHaplotypes/src/CountHaplotypes.cpp:253-264 | one genotype folds into the site, and the non-empty flag records whether it landed on N; no other site changes |
| Haplotypes.VoteRead | scripts/CountHaplotypes/src/CountHaplotypes.cpp:246-267 | one read folds its votes at the site into the haplotype array; no other site changes |
| Haplotypes.VoteSite | scripts/CountHaplotypes/src/CountHaplotypes.cpp:240-270 | a site ends as the fold of all votes of the group's covering reads, and is non-empty exactly when a vote landed on N |
| Haplotypes.VoteSites | scripts/CountHaplotypes/src/CountHaplotypes.cpp:220-271 | the array ends as the group's haplotype, and the flag says whether some vote landed on N |
| Haplotypes.WriteRow | scripts/CountHaplotypes/src/CountHaplotypes.cpp:275-280 | the row is every site followed by a tab, then a newline |
| Haplotypes.EvaluateGroup | scripts/CountHaplotypes/src/CountHaplotypes.cpp:159-280 | a group yields nothing when rejected, a CIGAR failure when an expansion does not fit, else its row when a vote landed on N |
| Haplotypes.ScanJoins | scripts/CountHaplotypes/src/CountHaplotypes.cpp:149-153 | a record with the current name joins the group and writes nothing |
| Haplotypes.ScanCloses | scripts/CountHaplotypes/src/CountHaplotypes.cpp:157-288 | a record with a new name evaluates the open group: a CIGAR failure or a quality overrun stops the run, otherwise its rows are written and a group opens with that record |
| Haplotypes.ScanStoppedStep | scripts/CountHaplotypes/src/CountHaplotypes.cpp:230-233 | after a stop of either kind, a record changes nothing |
| Haplotypes.ScanStopStays | scripts/CountHaplotypes/src/CountHaplotypes.cpp:230-233 | a CIGAR length error ends the run: the rows stay those written before it |
| Haplotypes.CloseGroup | scripts/CountHaplotypes/src/CountHaplotypes.cpp:159-280 | evaluating the open group gives the outcome of the records since the group opened, when it does not overrun a quality string |
| Haplotypes.ScanRecord | scripts/CountHaplotypes/src/CountHaplotypes.cpp:144-289 | one record advances the group state machine and appends the rows it writes |
| Haplotypes.ScanLoop | scripts/CountHaplotypes/src/CountHaplotypes.cpp:137-290 | the loop writes the rows of the state machine over all records, and completes exactly when it never stops; only the lines and groups reached before a stop need to be readable |
| Haplotypes.ScanUnreadable | scripts/CountHaplotypes/src/CountHaplotypes.cpp:141-144 | a line ReadSAM cannot read, reached while the run goes on, stops the run as out of range with the rows written so far |
| Haplotypes.ScanReach | scripts/CountHaplotypes/src/CountHaplotypes.cpp:141-233 | a line the loop reaches while the run goes on has the eleven fields, and the group it closes covers its qualities, when the run does not end out of range |
| Haplotypes.ScanInRange | scripts/CountHaplotypes/src/CountHaplotypes.cpp:141-290 | with every line readable and no group overrunning a quality string the run never ends out of range |
| Haplotypes.SamInRange | scripts/CountHaplotypes/src/CountHaplotypes.cpp:527-551 | a SAM file whose lines all have the eleven fields and whose qualities all cover their sequences meets what CountHaplotypes needs |
| Haplotypes.CountHaplotypes | scripts/CountHaplotypes/src/CountHaplotypes.cpp:97-290 | the output is the optional header followed by the rows of every evaluated group; completion as in ScanLoop |
| Haplotypes.LandsIffVoted | scripts/CountHaplotypes/src/CountHaplotypes.cpp:258-261 | a site marks the haplotype non-empty exactly when it received a vote: the first vote always lands on N |
| Haplotypes.FoldAgreement | scripts/CountHaplotypes/src/CountHaplotypes.cpp:258-264 | concordant votes give their base |
| Haplotypes.FoldVotesRange | scripts/CountHaplotypes/src/CountHaplotypes.cpp:258-264 | a folded site is N or one of the bases voted |
| Haplotypes.FoldExamples | scripts/CountHaplotypes/src/CountHaplotypes.cpp:258-264 | AA gives A, AC gives N, ACG gives G (a third vote revives the site), AAC gives N |
| Haplotypes.ReadVotesAtMostOne | scripts/CountHaplotypes/src/CountHaplotypes.cpp:246-267 | a read votes at most once per site, and only when its M tags reach past the site |
| Haplotypes.SiteVotesBound | scripts/CountHaplotypes/src/CountHaplotypes.cpp:241-270 | a site gets at most one vote per read of the group |
| Haplotypes.PairConcordance | scripts/CountHaplotypes/src/CountHaplotypes.cpp:255-264 | for a read pair: no vote gives N, one vote gives it, two votes give the common base when they agree and N when they differ (a called N lets the other vote through) |
| Haplotypes.NonEmptyIffVoted | scripts/CountHaplotypes/src/CountHaplotypes.cpp:258-261 | the haplotype is non-empty exactly when some site received a vote |
| Haplotypes.GroupRowWritten | scripts/CountHaplotypes/src/CountHaplotypes.cpp:273-280 | an accepted, fitting group whose qualities cover its sequences writes its haplotype row exactly when some site has a vote |
| Haplotypes.RejectedGroupSilent | scripts/CountHaplotypes/src/CountHaplotypes.cpp:204-215 | a group with a rejected record writes nothing |
| Haplotypes.EmptyGroupNoRow | scripts/CountHaplotypes/src/CountHaplotypes.cpp:159-280 | the empty group closed by the first record writes nothing |
| Haplotypes.RowTextShape | scripts/CountHaplotypes/src/CountHaplotypes.cpp:275-280 | a row has 2n + 1 characters: site i at 2i, a tab at 2i + 1, the newline last |
| Haplotypes.SingleNameNoRows | scripts/CountHaplotypes/src/CountHaplotypes.cpp:141-157 | records that all share one non-empty name only join one group, which stays open |
| Haplotypes.OnePairNoRows | scripts/CountHaplotypes/src/CountHaplotypes.cpp:141-290 | a file holding a single read name writes no row: the last group is never evaluated |

## Left out

- Command-line parsing, usage and parameter printing (ArgsParse, PrintUsage,
  PrintParameters, SetDebug) and the DEBUG output: they only print or set globals. The
  thresholds and the chromosome become parameters.
- File I/O: files are given as sequences of lines and outputs are returned as text or
  rows. Status messages are not modelled. A missing input file is not modelled: the
  tools return 1 before doing any work.
- The floating-point means of the base-frequency report: a row carries the total and
  the count (`Quotient`), or `Zero` for the printed "0". The float division and its
  formatting are not modelled.
- The integer widths of counters (`int`, `long long`) and of atoi's result: integers are
  unbounded, so overflow on huge inputs is not modelled. The unsigned comparisons the
  tools make are written out.
- GeneModel.ReadBED: requires complete exon lists (at least NumExons entries) on
  every accepted line and on the first refused one (`BedReadable`). The source indexes
  the lists without bounds checks, so a shorter list is undefined behaviour. Lines
  after the first refusal are never read, and nothing is asked of them.
- Annotate.AnnotateVariants: an index outside a string, which the source does not
  check, ends the modelled run with `OutOfRange`. This covers a reference read outside
  the reference and the negative codon position of a negative gene position, which
  the source writes at a negative index (AnnotateVariants.cpp:221). The method requires
  only that the run never reaches such a stop, so lines and gene models after a real
  stop are unconstrained. It also requires every gene model to hold NumExons exon
  entries (`AllWellFormed`), which every ReadBED result does (`BedRecordsWellFormed`).
- Tally.BaseTally.TallyLines: requires, for every counted record, that the expanded
  CIGAR covers its sequence up to the terminating NUL, and that the quality string
  does so at every index whose tag is neither I nor S (`QualityReadable`). Those are
  the indices where the source reads each string, without checks. It also requires every SAM line to have at least 11
  tab-separated fields (`HasFields`). That excludes SAM header lines and blank lines,
  which the source would also index at fields 1 to 10 (SummarizeBAM.cpp:139-146).
- Haplotypes.CountHaplotypes: a line without the 11 mandatory SAM fields, or a group
  whose quality strings do not cover its sequences, ends the modelled run with
  `OutOfRange`. The source indexes both without checks. The method requires only that
  the run never reaches such a stop, so lines after a CIGAR stop are unconstrained. An
  unreadable line stands for itself with an empty record (`NoRecord`) that nothing
  reads. The quality condition is still stronger than the source's: it is asked of
  every record of an accepted group whose expansions fit, while the source reads
  quality characters only at M bases that reach a query site. It also requires at
  least one query site, because the source reads the first and last sites in its
  filter loop.
- Fasta.ReadMultiFasta: requires every header line to keep a word after the '>'. The
  source takes element 0 of both splits, which is undefined on a header such as ">" or
  "> x".
- The std::map side effect of inserting default entries on lookup: a missing key reads
  as its default, and the inserted entries never reach an output.
- `NumReads` in CountHaplotypes: it is counted but never read.
- SummarizeBAM reports the number of indel characters, not indel reads. The model keeps
  that counter as the code computes it.
- The repository's Python and shell scripts and the other tools are not part of this
  model.
