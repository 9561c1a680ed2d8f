/** The haplotype counter: adjacent SAM records with the same query name form a group
    (a read pair); a group that passes the record filters votes, base by base, at a
    list of query sites on one chromosome, and a group whose votes reached some site is
    written as one row with a character per site. */
module Haplotypes {
  import opened Strings
  import opened Decimal
  import opened Cigar

  /** The fields of a SAM record that the counter keeps. */
  datatype SamRead = SamRead(qname: string, flag: int, chr: string, pos: int, mapq: int, cigar: string,
                             tlen: int, bases: string, quality: string)

  /** A SAM line has the eleven mandatory fields that ReadSAM records. */
  predicate SamLine(line: string)
  {
    |Split(line, '\t')| >= 11
  }

  /** ReadSAM: the fields at their fixed columns; the position and the mapping quality
      are the field values minus one, the flag is the raw value. */
  function ReadSAM(fields: seq<string>): SamRead
    requires |fields| >= 11
  {
    SamRead(fields[0], Atoi(fields[1]), fields[2], Atoi(fields[3]) - 1, Atoi(fields[4]) - 1, fields[5],
            Atoi(fields[8]), fields[9], fields[10])
  }

  /** The records of a SAM file, one per line. ReadSAM cannot read a line without the
      eleven fields (it indexes them unchecked); such a line stands as NoRecord here, and
      the main loop stops at it before the record is used. */
  function SamReads(lines: seq<string>): (records: seq<SamRead>)
    ensures |records| == |lines|
    ensures forall i :: 0 <= i < |lines| && SamLine(lines[i]) ==> records[i] == RecordOf(lines[i])
  {
    seq(|lines|, i requires 0 <= i < |lines| => if SamLine(lines[i]) then RecordOf(lines[i]) else NoRecord)
  }

  const NoRecord := SamRead("", 0, "", 0, 0, "", 0, "", "")

  /** Which lines of a SAM file ReadSAM can read. */
  function LinesRead(lines: seq<string>): (ok: seq<bool>)
    ensures |ok| == |lines| && forall i :: 0 <= i < |lines| ==> ok[i] == SamLine(lines[i])
  {
    seq(|lines|, i requires 0 <= i < |lines| => SamLine(lines[i]))
  }

  /** The record of one SAM line. */
  function RecordOf(line: string): SamRead
    requires SamLine(line)
  {
    ReadSAM(Split(line, '\t'))
  }

  /** The SAM line of a record: its fields in their columns, the position and the
      mapping quality one-based, tab-separated. */
  function SamText(r: SamRead, rnext: string, pnext: string): string
  {
    Join([r.qname, IntText(r.flag), r.chr, IntText(r.pos + 1), IntText(r.mapq + 1), r.cigar, rnext, pnext,
          IntText(r.tlen), r.bases, r.quality], '\t')
  }

  /** ReadSAM reads back every field of a record written as a SAM line, when its text
      fields are non-empty and free of tabs. */
  lemma SamLineRoundTrip(r: SamRead, rnext: string, pnext: string)
    requires ProperFields([r.qname, r.chr, r.cigar, rnext, pnext, r.bases, r.quality], '\t')
    ensures SamLine(SamText(r, rnext, pnext)) && RecordOf(SamText(r, rnext, pnext)) == r
  {
    var fs := [r.qname, IntText(r.flag), r.chr, IntText(r.pos + 1), IntText(r.mapq + 1), r.cigar, rnext, pnext,
               IntText(r.tlen), r.bases, r.quality];
    var proper := [r.qname, r.chr, r.cigar, rnext, pnext, r.bases, r.quality];
    assert proper[0] == fs[0] && proper[1] == fs[2] && proper[2] == fs[5] && proper[3] == fs[6];
    assert proper[4] == fs[7] && proper[5] == fs[9] && proper[6] == fs[10];
    NoTabInIntText(r.flag);
    NoTabInIntText(r.pos + 1);
    NoTabInIntText(r.mapq + 1);
    NoTabInIntText(r.tlen);
    SplitJoin(fs, '\t');
    AtoiIntText(r.flag);
    AtoiIntText(r.pos + 1);
    AtoiIntText(r.mapq + 1);
    AtoiIntText(r.tlen);
  }

  /** The command-line settings the counter uses. */
  datatype Settings = Settings(chr: string, mapQThreshold: int, baseQThreshold: int)

  // ---------------------------------------------------------------------------------
  // Query sites and the header line.

  /** The query sites: every line's value minus one. */
  function QuerySites(lines: seq<string>): (sites: seq<int>)
    ensures |sites| == |lines| && forall i :: 0 <= i < |lines| ==> sites[i] == Atoi(lines[i]) - 1
  {
    seq(|lines|, i requires 0 <= i < |lines| => Atoi(lines[i]) - 1)
  }

  method ReadQueries(lines: seq<string>) returns (sites: seq<int>)
    ensures sites == QuerySites(lines)
  {
    sites := [];
    for i := 0 to |lines|
      invariant sites == QuerySites(lines[..i])
    {
      assert lines[..i + 1][..i] == lines[..i];
      sites := sites + [Atoi(lines[i]) - 1];
    }
    assert lines[..|lines|] == lines;
  }

  /** The one-based query sites written out. */
  function SiteTexts(sites: seq<int>): (ts: seq<string>)
    ensures |ts| == |sites| && forall i :: 0 <= i < |sites| ==> ts[i] == IntText(sites[i] + 1)
  {
    seq(|sites|, i requires 0 <= i < |sites| => IntText(sites[i] + 1))
  }

  /** The first `n` fields, each followed by a tab. */
  function TabPrefix(fs: seq<string>, n: nat): string
    requires n <= |fs|
  {
    if n == 0 then [] else TabPrefix(fs, n - 1) + fs[n - 1] + "\t"
  }

  /** The fields with a tab after all but the last and a newline after the last. */
  function TerminatedRow(fs: seq<string>): string
    requires fs != []
  {
    TabPrefix(fs, |fs| - 1) + fs[|fs| - 1] + "\n"
  }

  /** The header line: the one-based sites as a terminated row; nothing without sites. */
  function HeaderText(sites: seq<int>): string
  {
    if sites == [] then [] else TerminatedRow(SiteTexts(sites))
  }

  method HeaderLine(sites: seq<int>) returns (text: string)
    ensures text == HeaderText(sites)
  {
    text := [];
    if sites == [] {
      return;
    }
    ghost var ts := SiteTexts(sites);
    for i := 0 to |sites| - 1
      invariant text == TabPrefix(ts, i)
    {
      var t := IntText(sites[i] + 1);
      assert t == ts[i];
      text := text + t + "\t";
    }
    var t := IntText(sites[|sites| - 1] + 1);
    assert t == ts[|ts| - 1];
    text := text + t + "\n";
  }

  /** The header line is a newline-terminated row of tab-separated fields that read
      back, through atoi, as the one-based query sites. */
  lemma HeaderRoundTrip(sites: seq<int>)
    requires sites != []
    ensures var h := HeaderText(sites);
      |h| > 0 && h[|h| - 1] == '\n' && Split(h[..|h| - 1], '\t') == SiteTexts(sites) &&
      forall i :: 0 <= i < |sites| ==> Atoi(Split(h[..|h| - 1], '\t')[i]) == sites[i] + 1
  {
    var ts := SiteTexts(sites);
    forall i | 0 <= i < |ts|
      ensures ts[i] != [] && '\t' !in ts[i]
    {
      NoTabInIntText(sites[i] + 1);
    }
    TerminatedRowSplit(ts);
    forall i | 0 <= i < |sites|
      ensures Atoi(ts[i]) == sites[i] + 1
    {
      AtoiIntText(sites[i] + 1);
    }
  }

  /** A terminated row of proper fields splits back into them once the newline is cut. */
  lemma TerminatedRowSplit(fs: seq<string>)
    requires fs != [] && ProperFields(fs, '\t')
    ensures var h := TerminatedRow(fs);
      |h| > 0 && h[|h| - 1] == '\n' && Split(h[..|h| - 1], '\t') == fs
  {
    var n := |fs| - 1;
    var body := TabPrefix(fs, n) + fs[n];
    TabPrefixJoin(fs, n, fs[n]);
    assert fs[..n] + [fs[n]] == fs;
    SplitJoin(fs, '\t');
    assert (body + "\n")[..|body + "\n"| - 1] == body;
  }

  /** The tabbed prefix and a last field are the fields joined by tabs. */
  lemma {:induction false} TabPrefixJoin(fs: seq<string>, n: nat, t: string)
    requires n <= |fs|
    ensures TabPrefix(fs, n) + t == Join(fs[..n] + [t], '\t')
  {
    if n > 0 {
      TabPrefixJoin(fs, n - 1, fs[n - 1]);
      assert fs[..n - 1] + [fs[n - 1]] == fs[..n];
      JoinSnoc(fs[..n], t, '\t');
      var p := TabPrefix(fs, n - 1);
      assert TabPrefix(fs, n) + t == (p + fs[n - 1]) + ("\t" + t);
    }
  }

  /** Joining one more field puts a delimiter before it. */
  lemma {:induction false} JoinSnoc(fs: seq<string>, x: string, c: char)
    requires fs != []
    ensures Join(fs + [x], c) == Join(fs, c) + [c] + x
    decreases |fs|
  {
    if |fs| == 1 {
      assert (fs + [x])[1..] == [x];
    } else {
      assert (fs + [x])[1..] == fs[1..] + [x];
      JoinSnoc(fs[1..], x, c);
      assert Join(fs + [x], c) == fs[0] + [c] + (Join(fs[1..], c) + [c] + x);
    }
  }

  lemma NoTabInIntText(n: int)
    ensures IntText(n) != [] && '\t' !in IntText(n)
  {
    var s := IntText(n);
    forall i | 0 <= i < |s|
      ensures s[i] != '\t'
    {
    }
  }

  // ---------------------------------------------------------------------------------
  // The group filter.

  /** A record that rejects its whole group: unmapped, a flag above 256, another
      chromosome, a mapping quality below the threshold, or a CIGAR character that
      strchr finds among I, D and P. */
  predicate Rejects(r: SamRead, s: Settings)
  {
    r.cigar == "*" || r.flag > 256 || r.chr != s.chr || r.mapq < s.mapQThreshold ||
    exists j :: 0 <= j < |r.cigar| && StrchrFinds(IndelOperations, r.cigar[j])
  }

  predicate Accepted(group: seq<SamRead>, s: Settings)
  {
    forall i :: 0 <= i < |group| ==> !Rejects(group[i], s)
  }

  /** The filter loop. Its coverage test records the first and the last query site and
      then only moves on to the next record, so it decides nothing. */
  method FilterGroup(group: seq<SamRead>, queries: seq<int>, s: Settings) returns (parsePair: bool)
    requires queries != []
    ensures parsePair <==> Accepted(group, s)
  {
    parsePair := true;
    for i := 0 to |group|
      invariant parsePair <==> Accepted(group[..i], s)
    {
      assert group[..i + 1][..i] == group[..i] && group[..i + 1][i] == group[i];
      var r := group[i];
      if r.cigar == "*" {
        parsePair := false;
        continue;
      }
      if r.flag > 256 {
        parsePair := false;
        continue;
      }
      if r.chr != s.chr || r.mapq < s.mapQThreshold {
        parsePair := false;
        continue;
      }
      var indel := HasIndel(r.cigar);
      if indel {
        parsePair := false;
      }
      if !(r.pos + r.tlen > queries[0] && r.pos < queries[|queries| - 1]) {
        continue;
      }
    }
    assert group[..|group|] == group;
  }

  /** The loop over the CIGAR characters with strchr on "IDP". */
  method HasIndel(cigar: string) returns (indel: bool)
    ensures indel <==> exists j :: 0 <= j < |cigar| && StrchrFinds(IndelOperations, cigar[j])
  {
    indel := false;
    for j := 0 to |cigar|
      invariant indel <==> exists j' :: 0 <= j' < j && StrchrFinds(IndelOperations, cigar[j'])
    {
      if StrchrFinds(IndelOperations, cigar[j]) {
        indel := true;
      }
    }
  }

  // ---------------------------------------------------------------------------------
  // Votes.

  /** The expanded CIGAR string of every record of a group. */
  function Expansions(group: seq<SamRead>): (es: seq<string>)
    ensures |es| == |group| && forall j :: 0 <= j < |group| ==> es[j] == Expanded(group[j].cigar)
  {
    seq(|group|, j requires 0 <= j < |group| => Expanded(group[j].cigar))
  }

  /** Every record's expansion is as long as its sequence. */
  predicate ExpansionsFit(group: seq<SamRead>)
  {
    forall j :: 0 <= j < |group| ==> |Expanded(group[j].cigar)| == |group[j].bases|
  }

  /** Every quality string covers its sequence, up to the NUL that `quality[k]` records
      at the end. */
  predicate QualityCovers(r: SamRead)
  {
    |r.bases| <= |r.quality| + 1
  }

  /** Record `r` covers site `q`: `q > pos && q < pos + seq.size()`, where the second
      comparison is between unsigned 64-bit values. */
  predicate Covers(q: int, r: SamRead)
  {
    q > r.pos && q % 0x1_0000_0000_0000_0000 < (r.pos + |r.bases|) % 0x1_0000_0000_0000_0000
  }

  /** The number of M tags among the first `k`. */
  function MCount(e: string, k: nat): nat
    requires k <= |e|
  {
    if k == 0 then 0 else MCount(e, k - 1) + (if e[k - 1] == 'M' then 1 else 0)
  }

  /** Base `k` votes at site `q`: an M tag, the reference position reached by counting
      M tags from the record's position, and a quality character (taken as a raw signed
      char) at or above the threshold. */
  predicate VoteAt(seqs: string, quality: string, e: string, pos: int, q: int, thr: int, k: nat)
    requires k < |seqs| <= |e| && |seqs| <= |quality| + 1
  {
    e[k] == 'M' && pos + MCount(e, k) == q && SignedChar(At(quality, k)) >= thr
  }

  /** The bases that the first `k` bases of a record vote at site `q`, in order. */
  function ReadVotes(seqs: string, quality: string, e: string, pos: int, q: int, thr: int, k: nat): seq<char>
    requires k <= |seqs| <= |e| && |seqs| <= |quality| + 1
  {
    if k == 0 then []
    else ReadVotes(seqs, quality, e, pos, q, thr, k - 1) + (if VoteAt(seqs, quality, e, pos, q, thr, k - 1) then [seqs[k - 1]] else [])
  }

  /** The votes of the first `j` records of a group at site `q`, record after record. */
  function SiteVotes(group: seq<SamRead>, q: int, thr: int, j: nat): seq<char>
    requires j <= |group| && ExpansionsFit(group) && forall i :: 0 <= i < |group| ==> QualityCovers(group[i])
  {
    if j == 0 then []
    else
      var r := group[j - 1];
      SiteVotes(group, q, thr, j - 1) +
        (if Covers(q, r) then ReadVotes(r.bases, r.quality, Expanded(r.cigar), r.pos, q, thr, |r.bases|) else [])
  }

  /** One vote folded into a site: an N takes the base, a different base resets the site
      to N, the same base leaves it. */
  function Fold(h: char, b: char): char
  {
    if h == 'N' then b else if h != b then 'N' else h
  }

  /** A site after the votes `vs`, from `h`. */
  function FoldVotes(h: char, vs: seq<char>): char
  {
    if vs == [] then h else Fold(FoldVotes(h, vs[..|vs| - 1]), vs[|vs| - 1])
  }

  /** Some vote of `vs` reaches the site while it holds N. */
  predicate Lands(h: char, vs: seq<char>)
  {
    vs != [] && (Lands(h, vs[..|vs| - 1]) || FoldVotes(h, vs[..|vs| - 1]) == 'N')
  }

  /** The haplotype of a group: every site after all its votes. */
  function Haplotype(group: seq<SamRead>, queries: seq<int>, thr: int): (h: seq<char>)
    requires ExpansionsFit(group) && forall i :: 0 <= i < |group| ==> QualityCovers(group[i])
    ensures |h| == |queries| && forall i :: 0 <= i < |queries| ==> h[i] == FoldVotes('N', SiteVotes(group, queries[i], thr, |group|))
  {
    seq(|queries|, i requires 0 <= i < |queries| => FoldVotes('N', SiteVotes(group, queries[i], thr, |group|)))
  }

  /** Some vote at one of the first `n` sites landed on N. */
  predicate NonEmptyBelow(group: seq<SamRead>, queries: seq<int>, thr: int, n: nat)
    requires n <= |queries| && ExpansionsFit(group) && forall i :: 0 <= i < |group| ==> QualityCovers(group[i])
  {
    n > 0 && (NonEmptyBelow(group, queries, thr, n - 1) || Lands('N', SiteVotes(group, queries[n - 1], thr, |group|)))
  }

  /** The first `n` characters of a row, each followed by a tab. */
  function Tabbed(h: seq<char>, n: nat): string
    requires n <= |h|
  {
    if n == 0 then [] else Tabbed(h, n - 1) + [h[n - 1], '\t']
  }

  /** A haplotype row: every site's character followed by a tab, then a newline. */
  function RowText(h: seq<char>): string
  {
    Tabbed(h, |h|) + "\n"
  }

  /** Every record of a group has the quality to cover its bases. */
  predicate AllCover(group: seq<SamRead>)
  {
    forall i :: 0 <= i < |group| ==> QualityCovers(group[i])
  }

  /** What evaluating a group gives: the rows it writes, a CIGAR parsing error, or a
      quality string shorter than its sequence in a group that then votes, where the
      vote loop would read past the string and the behaviour is undefined. */
  datatype GroupResult = Emits(rows: seq<string>) | CigarFailure | QualityOverrun

  /** What a group writes: nothing when a record rejects it; a stop when some record's
      expansion is not as long as its sequence; otherwise one row when a vote landed
      on N and none when none did. */
  function GroupOutcome(group: seq<SamRead>, queries: seq<int>, s: Settings): (r: GroupResult)
  {
    if !Accepted(group, s) then Emits([])
    else if !ExpansionsFit(group) then CigarFailure
    else if !AllCover(group) then QualityOverrun
    else if NonEmptyBelow(group, queries, s.baseQThreshold, |queries|) then Emits([RowText(Haplotype(group, queries, s.baseQThreshold))])
    else Emits([])
  }

  // ---------------------------------------------------------------------------------
  // The group state machine.

  /** `strcmp(a.c_str(), b.c_str())` sees a string up to its first NUL. */
  function CName(s: string): string
  {
    if s == [] || s[0] == '\0' then [] else [s[0]] + CName(s[1..])
  }

  /** Whether the main loop goes on, was stopped by a CIGAR parsing error, or reached a
      read whose behaviour is undefined: a line ReadSAM cannot read, or a quality string
      read past its end. */
  datatype Halt = Going | CigarStop | OutOfRange

  /** The state of the main loop after `n` records: the current query name, where the
      current group starts (it is every record from there to `n`), the rows written and
      whether the run goes on. */
  datatype Scan = Scan(currentID: string, start: nat, rows: seq<string>, halt: Halt)

  /** The outcome of every candidate group: entry [a][b] is that of records `a` to `b`. */
  type Table = seq<seq<GroupResult>>

  /** A table with an entry for every pair of positions 0 to `m`. */
  predicate Square(table: Table, m: nat)
  {
    |table| == m + 1 && forall a :: 0 <= a < |table| ==> |table[a]| == m + 1
  }

  /** The state after the first `n` records, given the query names of the records,
      which lines can be read (`ok`) and the outcome `table[a][b]` of evaluating the
      records `a` to `b` as one group. A record named like the current group joins it;
      any other record has the group evaluated and starts a new one. The first record
      thus evaluates the empty group, and the last group is never evaluated. */
  function ScanOver(names: seq<string>, table: Table, ok: seq<bool>, n: nat): (scan: Scan)
    requires n <= |names| == |ok| && Square(table, |names|)
    ensures scan.start <= n
  {
    if n == 0 then Scan("", 0, [], Going)
    else
      var prev := ScanOver(names, table, ok, n - 1);
      if prev.halt != Going then prev
      else if !ok[n - 1] then Scan(prev.currentID, prev.start, prev.rows, OutOfRange)
      else if CName(names[n - 1]) == CName(prev.currentID) then Scan(prev.currentID, prev.start, prev.rows, Going)
      else
        match table[prev.start][n - 1]
        case CigarFailure => Scan(prev.currentID, prev.start, prev.rows, CigarStop)
        case QualityOverrun => Scan(prev.currentID, prev.start, prev.rows, OutOfRange)
        case Emits(rows) => Scan(names[n - 1], n - 1, prev.rows + rows, Going)
  }

  /** The query names of the records. */
  function Names(records: seq<SamRead>): (names: seq<string>)
    ensures |names| == |records| && forall i :: 0 <= i < |records| ==> names[i] == records[i].qname
  {
    seq(|records|, i requires 0 <= i < |records| => records[i].qname)
  }

  /** The outcome of every candidate group of the records: entry [a][b] is that of the
      records `a` to `b` (unused entries with `a > b` hold an empty outcome). */
  function GroupTable(records: seq<SamRead>, queries: seq<int>, s: Settings): (table: Table)
    ensures Square(table, |records|)
  {
    seq(|records| + 1, a requires 0 <= a <= |records| =>
      seq(|records| + 1, b requires 0 <= b <= |records| =>
        if a <= b then GroupOutcome(records[a..b], queries, s) else Emits([])))
  }

  /** An entry of the group table. */
  lemma GroupTableEntry(records: seq<SamRead>, queries: seq<int>, s: Settings, a: nat, b: nat)
    requires a <= b <= |records|
    ensures GroupTable(records, queries, s)[a][b] == GroupOutcome(records[a..b], queries, s)
  {
  }

  /** The state of the main loop after the first `n` records. */
  function ScanReads(records: seq<SamRead>, queries: seq<int>, s: Settings, ok: seq<bool>, n: nat): (scan: Scan)
    requires n <= |records| == |ok|
  {
    ScanOver(Names(records), GroupTable(records, queries, s), ok, n)
  }

  /** The state of the main loop at the end of a SAM file. */
  function SamScan(samLines: seq<string>, queries: seq<int>, s: Settings): Scan
  {
    ScanReads(SamReads(samLines), queries, s, LinesRead(samLines), |samLines|)
  }

  /** The output of the counter: the header line when asked for, then the rows. */
  function OutputText(queryLines: seq<string>, samLines: seq<string>, s: Settings, header: bool): string
  {
    var queries := QuerySites(queryLines);
    (if header then HeaderText(queries) else []) + Concat(SamScan(samLines, queries, s).rows)
  }

  /** Whether the counter reaches the end of the SAM file. */
  predicate Completes(queryLines: seq<string>, samLines: seq<string>, s: Settings)
  {
    SamScan(samLines, QuerySites(queryLines), s).halt == Going
  }

  // ---------------------------------------------------------------------------------
  // The loops of the main function.

  /** One more base of a record in ReadVotes. */
  lemma ReadVotesStep(seqs: string, quality: string, e: string, pos: int, q: int, thr: int, k: nat)
    requires k < |seqs| <= |e| && |seqs| <= |quality| + 1
    ensures ReadVotes(seqs, quality, e, pos, q, thr, k + 1) ==
      ReadVotes(seqs, quality, e, pos, q, thr, k) + (if VoteAt(seqs, quality, e, pos, q, thr, k) then [seqs[k]] else [])
    ensures MCount(e, k + 1) == MCount(e, k) + (if e[k] == 'M' then 1 else 0)
  {
  }

  /** One more vote in FoldVotes and Lands. */
  lemma FoldStep(vs: seq<char>, b: char)
    ensures FoldVotes('N', vs + [b]) == Fold(FoldVotes('N', vs), b)
    ensures Lands('N', vs + [b]) == (Lands('N', vs) || FoldVotes('N', vs) == 'N')
  {
    assert (vs + [b])[..|vs|] == vs;
  }

  /** The loop over the bases of one record at site `i`, with the running reference
      position. `before` are the votes of the earlier records at the site. */
  method VoteRead(haplotype: array<char>, i: nat, r: SamRead, e: string, q: int, thr: int, nonEmpty: bool,
                  ghost base: bool, ghost before: seq<char>) returns (nonEmpty': bool)
    requires i < haplotype.Length && |e| == |r.bases| && QualityCovers(r)
    requires haplotype[i] == FoldVotes('N', before) && nonEmpty == (base || Lands('N', before))
    modifies haplotype
    ensures haplotype[i] == FoldVotes('N', before + ReadVotes(r.bases, r.quality, e, r.pos, q, thr, |r.bases|))
    ensures nonEmpty' == (base || Lands('N', before + ReadVotes(r.bases, r.quality, e, r.pos, q, thr, |r.bases|)))
    ensures forall i' :: 0 <= i' < haplotype.Length && i' != i ==> haplotype[i'] == old(haplotype[i'])
  {
    nonEmpty' := nonEmpty;
    var refPos := r.pos;
    assert before + [] == before;
    for k := 0 to |r.bases|
      invariant refPos == r.pos + MCount(e, k)
      invariant haplotype[i] == FoldVotes('N', before + ReadVotes(r.bases, r.quality, e, r.pos, q, thr, k))
      invariant nonEmpty' == (base || Lands('N', before + ReadVotes(r.bases, r.quality, e, r.pos, q, thr, k)))
      invariant forall i' :: 0 <= i' < haplotype.Length && i' != i ==> haplotype[i'] == old(haplotype[i'])
    {
      ghost var done := ReadVotes(r.bases, r.quality, e, r.pos, q, thr, k);
      ReadVotesStep(r.bases, r.quality, e, r.pos, q, thr, k);
      if e[k] == 'M' {
        if refPos == q && SignedChar(At(r.quality, k)) >= thr {
          AppendAssoc(before, done, [r.bases[k]]);
          nonEmpty' := VoteBase(haplotype, i, r.bases[k], nonEmpty', base, before + done);
        } else {
          assert done + [] == done;
        }
        refPos := refPos + 1;
      } else {
        assert done + [] == done;
      }
    }
  }

  /** One vote at site `i`: an N takes the base and marks the haplotype non-empty, a
      different base resets the site to N. */
  method VoteBase(haplotype: array<char>, i: nat, genotype: char, nonEmpty: bool, ghost base: bool, ghost done: seq<char>)
    returns (nonEmpty': bool)
    requires i < haplotype.Length && haplotype[i] == FoldVotes('N', done) && nonEmpty == (base || Lands('N', done))
    modifies haplotype
    ensures haplotype[i] == FoldVotes('N', done + [genotype]) && nonEmpty' == (base || Lands('N', done + [genotype]))
    ensures forall i' :: 0 <= i' < haplotype.Length && i' != i ==> haplotype[i'] == old(haplotype[i'])
  {
    FoldStep(done, genotype);
    nonEmpty' := nonEmpty;
    if haplotype[i] == 'N' {
      haplotype[i] := genotype;
      nonEmpty' := true;
    } else if haplotype[i] != genotype {
      haplotype[i] := 'N';
    }
  }

  /** One more record in SiteVotes. */
  lemma SiteVotesStep(group: seq<SamRead>, q: int, thr: int, j: nat)
    requires j < |group| && ExpansionsFit(group) && forall i :: 0 <= i < |group| ==> QualityCovers(group[i])
    ensures var r := group[j];
      SiteVotes(group, q, thr, j + 1) == SiteVotes(group, q, thr, j) +
        (if Covers(q, r) then ReadVotes(r.bases, r.quality, Expanded(r.cigar), r.pos, q, thr, |r.bases|) else [])
  {
  }

  /** The loop over the records of a group at one site. */
  method VoteSite(haplotype: array<char>, i: nat, group: seq<SamRead>, exps: seq<string>, q: int, thr: int, nonEmpty: bool)
    returns (nonEmpty': bool)
    requires i < haplotype.Length && haplotype[i] == 'N'
    requires ExpansionsFit(group) && exps == Expansions(group) && forall j :: 0 <= j < |group| ==> QualityCovers(group[j])
    modifies haplotype
    ensures haplotype[i] == FoldVotes('N', SiteVotes(group, q, thr, |group|))
    ensures nonEmpty' == (nonEmpty || Lands('N', SiteVotes(group, q, thr, |group|)))
    ensures forall i' :: 0 <= i' < haplotype.Length && i' != i ==> haplotype[i'] == old(haplotype[i'])
  {
    nonEmpty' := nonEmpty;
    for j := 0 to |group|
      invariant haplotype[i] == FoldVotes('N', SiteVotes(group, q, thr, j))
      invariant nonEmpty' == (nonEmpty || Lands('N', SiteVotes(group, q, thr, j)))
      invariant forall i' :: 0 <= i' < haplotype.Length && i' != i ==> haplotype[i'] == old(haplotype[i'])
    {
      ghost var done := SiteVotes(group, q, thr, j);
      SiteVotesStep(group, q, thr, j);
      var r := group[j];
      if q > r.pos && q % 0x1_0000_0000_0000_0000 < (r.pos + |r.bases|) % 0x1_0000_0000_0000_0000 {
        assert Covers(q, r);
        nonEmpty' := VoteRead(haplotype, i, r, exps[j], q, thr, nonEmpty', nonEmpty, done);
      } else {
        assert !Covers(q, r) && done + [] == done;
      }
    }
  }

  /** The loop over the query sites. */
  method VoteSites(haplotype: array<char>, group: seq<SamRead>, exps: seq<string>, queries: seq<int>, thr: int)
    returns (nonEmpty: bool)
    requires haplotype.Length == |queries| && forall i :: 0 <= i < |queries| ==> haplotype[i] == 'N'
    requires ExpansionsFit(group) && exps == Expansions(group) && forall j :: 0 <= j < |group| ==> QualityCovers(group[j])
    modifies haplotype
    ensures haplotype[..] == Haplotype(group, queries, thr)
    ensures nonEmpty == NonEmptyBelow(group, queries, thr, |queries|)
  {
    nonEmpty := false;
    for i := 0 to |queries|
      invariant forall i' :: 0 <= i' < i ==> haplotype[i'] == FoldVotes('N', SiteVotes(group, queries[i'], thr, |group|))
      invariant forall i' :: i <= i' < |queries| ==> haplotype[i'] == 'N'
      invariant nonEmpty == NonEmptyBelow(group, queries, thr, i)
    {
      nonEmpty := VoteSite(haplotype, i, group, exps, queries[i], thr, nonEmpty);
    }
  }

  /** The expansion loop: every record's CIGAR string expanded, stopping at the first
      one that is not as long as its sequence. */
  method ExpandGroup(group: seq<SamRead>) returns (exps: seq<string>, fits: bool)
    ensures fits <==> ExpansionsFit(group)
    ensures fits ==> exps == Expansions(group)
  {
    exps := [];
    for i := 0 to |group|
      invariant |exps| == i && forall j :: 0 <= j < i ==> exps[j] == Expanded(group[j].cigar) && |exps[j]| == |group[j].bases|
    {
      var e := ExpandCIGAR(group[i].cigar);
      exps := exps + [e];
      if |e| != |group[i].bases| {
        return exps, false;
      }
    }
    fits := true;
  }

  /** The row loop: every site and a tab, then the newline. */
  method WriteRow(haplotype: array<char>) returns (row: string)
    ensures row == RowText(haplotype[..])
  {
    row := [];
    for i := 0 to haplotype.Length
      invariant row == Tabbed(haplotype[..], i)
    {
      row := row + [haplotype[i], '\t'];
    }
    row := row + "\n";
  }

  /** The evaluation of a finished group. */
  method EvaluateGroup(group: seq<SamRead>, queries: seq<int>, s: Settings) returns (r: GroupResult)
    requires queries != [] && GroupOutcome(group, queries, s) != QualityOverrun
    ensures r == GroupOutcome(group, queries, s)
  {
    var parsePair := FilterGroup(group, queries, s);
    if !parsePair {
      return Emits([]);
    }
    var nonEmpty := false;
    var haplotype := new char[|queries|];
    for i := 0 to |queries|
      invariant forall i' :: 0 <= i' < i ==> haplotype[i'] == 'N'
    {
      haplotype[i] := 'N';
    }
    var exps, fits := ExpandGroup(group);
    if !fits {
      return CigarFailure;
    }
    assert AllCover(group);
    nonEmpty := VoteSites(haplotype, group, exps, queries, s.baseQThreshold);
    if nonEmpty {
      var row := WriteRow(haplotype);
      return Emits([row]);
    }
    r := Emits([]);
  }

  /** A record with the current name joins the group. */
  lemma ScanJoins(names: seq<string>, table: Table, ok: seq<bool>, n: nat)
    requires n < |names| == |ok| && Square(table, |names|) && ok[n]
    requires var prev := ScanOver(names, table, ok, n); prev.halt == Going && CName(names[n]) == CName(prev.currentID)
    ensures var prev := ScanOver(names, table, ok, n);
      ScanOver(names, table, ok, n + 1) == Scan(prev.currentID, prev.start, prev.rows, Going)
  {
  }

  /** A record with another name closes the group: a failed evaluation stops the run,
      otherwise its rows are written and the record starts the next group. */
  lemma ScanCloses(names: seq<string>, table: Table, ok: seq<bool>, n: nat)
    requires n < |names| == |ok| && Square(table, |names|) && ok[n]
    requires var prev := ScanOver(names, table, ok, n); prev.halt == Going && CName(names[n]) != CName(prev.currentID)
    ensures var prev := ScanOver(names, table, ok, n);
      var outcome := table[prev.start][n];
      ScanOver(names, table, ok, n + 1) ==
        match outcome
        case CigarFailure => Scan(prev.currentID, prev.start, prev.rows, CigarStop)
        case QualityOverrun => Scan(prev.currentID, prev.start, prev.rows, OutOfRange)
        case Emits(rows) => Scan(names[n], n, prev.rows + rows, Going)
  {
  }

  /** A line ReadSAM cannot read, reached while the run goes on, stops it as out of
      range, with the rows written so far. */
  lemma ScanUnreadable(names: seq<string>, table: Table, ok: seq<bool>, n: nat)
    requires n < |names| == |ok| && Square(table, |names|) && !ok[n]
    requires ScanOver(names, table, ok, n).halt == Going
    ensures ScanOver(names, table, ok, n + 1).halt == OutOfRange
    ensures ScanOver(names, table, ok, n + 1).rows == ScanOver(names, table, ok, n).rows
  {
  }

  /** A stopped state does not change with one more record. */
  lemma ScanStoppedStep(names: seq<string>, table: Table, ok: seq<bool>, n: nat)
    requires n < |names| == |ok| && Square(table, |names|) && ScanOver(names, table, ok, n).halt != Going
    ensures ScanOver(names, table, ok, n + 1) == ScanOver(names, table, ok, n)
  {
  }

  /** A stop is final. */
  lemma {:induction false} ScanStopStays(names: seq<string>, table: Table, ok: seq<bool>, n: nat, m: nat)
    requires n <= m <= |names| == |ok| && Square(table, |names|)
    requires ScanOver(names, table, ok, n).halt != Going
    ensures ScanOver(names, table, ok, m) == ScanOver(names, table, ok, n)
    decreases m
  {
    if n < m {
      ScanStopStays(names, table, ok, n, m - 1);
      ScanStoppedStep(names, table, ok, m - 1);
    }
  }

  /** A record the loop reaches while the run goes on can be read, and so can the group
      it closes, when the run does not end with OutOfRange. */
  lemma ScanReach(names: seq<string>, table: Table, ok: seq<bool>, n: nat)
    requires n < |names| == |ok| && Square(table, |names|)
    requires ScanOver(names, table, ok, n).halt == Going
    requires ScanOver(names, table, ok, |names|).halt != OutOfRange
    ensures ok[n]
    ensures var prev := ScanOver(names, table, ok, n);
      CName(names[n]) != CName(prev.currentID) ==> table[prev.start][n] != QualityOverrun
  {
    var prev := ScanOver(names, table, ok, n);
    if !ok[n] || (CName(names[n]) != CName(prev.currentID) && table[prev.start][n] == QualityOverrun) {
      assert ScanOver(names, table, ok, n + 1).halt == OutOfRange;
      ScanStopStays(names, table, ok, n + 1, |names|);
    }
  }

  /** Without unreadable lines and with no group that overruns a quality string, the run
      never ends with OutOfRange. */
  lemma {:induction false} ScanInRange(names: seq<string>, table: Table, ok: seq<bool>, n: nat)
    requires n <= |names| == |ok| && Square(table, |names|)
    requires forall i :: 0 <= i < |ok| ==> ok[i]
    requires forall a, b :: 0 <= a <= b <= |names| ==> table[a][b] != QualityOverrun
    ensures ScanOver(names, table, ok, n).halt != OutOfRange
  {
    if n > 0 {
      ScanInRange(names, table, ok, n - 1);
      var prev := ScanOver(names, table, ok, n - 1);
      if prev.halt == Going && CName(names[n - 1]) != CName(prev.currentID) {
        assert table[prev.start][n - 1] != QualityOverrun;
      }
    }
  }

  /** So a SAM file whose every line has the eleven fields and whose every record's
      quality string covers its sequence meets the requirement of CountHaplotypes. */
  lemma SamInRange(samLines: seq<string>, queries: seq<int>, s: Settings)
    requires forall i :: 0 <= i < |samLines| ==> SamLine(samLines[i])
    requires forall i :: 0 <= i < |samLines| ==> QualityCovers(RecordOf(samLines[i]))
    ensures SamScan(samLines, queries, s).halt != OutOfRange
  {
    var records := SamReads(samLines);
    var table := GroupTable(records, queries, s);
    forall a, b | 0 <= a <= b <= |records|
      ensures table[a][b] != QualityOverrun
    {
      GroupTableEntry(records, queries, s, a, b);
      assert AllCover(records[a..b]);
    }
    ScanInRange(Names(records), table, LinesRead(samLines), |samLines|);
  }

  /** The main function: the queries, the optional header, then the SAM records one by
      one through the group state machine. */
  method CountHaplotypes(queryLines: seq<string>, samLines: seq<string>, s: Settings, header: bool)
    returns (text: string, completed: bool)
    requires queryLines != []
    requires SamScan(samLines, QuerySites(queryLines), s).halt != OutOfRange
    ensures text == OutputText(queryLines, samLines, s, header)
    ensures completed == Completes(queryLines, samLines, s)
  {
    var queries := ReadQueries(queryLines);
    var prefix := [];
    if header {
      prefix := HeaderLine(queries);
    }
    text, completed := ScanLoop(samLines, SamReads(samLines), LinesRead(samLines), queries, s, prefix);
  }

  /** The loop over the SAM lines after the header has been written. */
  method ScanLoop(samLines: seq<string>, ghost records: seq<SamRead>, ghost ok: seq<bool>, queries: seq<int>, s: Settings,
                  prefix: string)
    returns (text: string, completed: bool)
    requires queries != [] && |records| == |samLines| == |ok|
    requires forall i :: 0 <= i < |samLines| ==> ok[i] == SamLine(samLines[i])
    requires forall i :: 0 <= i < |samLines| && ok[i] ==> records[i] == RecordOf(samLines[i])
    requires ScanReads(records, queries, s, ok, |records|).halt != OutOfRange
    ensures text == prefix + Concat(ScanReads(records, queries, s, ok, |records|).rows)
    ensures completed == (ScanReads(records, queries, s, ok, |records|).halt == Going)
  {
    text := prefix;
    ghost var names, table := Names(records), GroupTable(records, queries, s);
    ghost var rows: seq<string> := [];
    ghost var start: nat := 0;
    var currentID := "";
    var readPair: seq<SamRead> := [];
    for n := 0 to |samLines|
      invariant ScanOver(names, table, ok, n) == Scan(currentID, start, rows, Going)
      invariant readPair == records[start..n] && text == prefix + Concat(rows)
    {
      ScanReach(names, table, ok, n);
      var newRead := ReadRecord(samLines[n]);
      var stop;
      currentID, readPair, start, rows, text, stop :=
        ScanRecord(newRead, records, queries, s, names, table, ok, n, currentID, readPair, start, rows, text, prefix);
      if stop {
        completed := false;
        ScanStopStays(names, table, ok, n + 1, |records|);
        return;
      }
    }
    completed := true;
  }

  /** The body of the loop for record `n`: a record with the current
      name joins the group; any other has the group evaluated, its rows written, and
      starts a new group, unless a CIGAR parsing error stops the run. */
  method ScanRecord(newRead: SamRead, ghost records: seq<SamRead>, queries: seq<int>, s: Settings,
                    ghost names: seq<string>, ghost table: Table, ghost ok: seq<bool>, ghost n: nat,
                    currentID: string, readPair: seq<SamRead>, ghost start: nat, ghost rows: seq<string>,
                    text: string, ghost prefix: string)
    returns (currentID': string, readPair': seq<SamRead>, ghost start': nat, ghost rows': seq<string>,
             text': string, stop: bool)
    requires n < |records| == |ok| && records[n] == newRead && queries != [] && ok[n]
    requires names == Names(records) && table == GroupTable(records, queries, s)
    requires ScanOver(names, table, ok, n) == Scan(currentID, start, rows, Going)
    requires CName(names[n]) != CName(currentID) ==> table[start][n] != QualityOverrun
    requires readPair == records[start..n] && text == prefix + Concat(rows)
    ensures !stop ==> ScanOver(names, table, ok, n + 1) == Scan(currentID', start', rows', Going)
    ensures !stop ==> readPair' == records[start'..n + 1] && text' == prefix + Concat(rows')
    ensures stop ==> ScanOver(names, table, ok, n + 1).halt == CigarStop
    ensures stop ==> text' == prefix + Concat(ScanOver(names, table, ok, n + 1).rows)
  {
    assert names[n] == newRead.qname;
    if CName(newRead.qname) == CName(currentID) {
      ScanJoins(names, table, ok, n);
      SliceSnoc(records, start, n);
      return currentID, readPair + [newRead], start, rows, text, false;
    }
    var outcome := CloseGroup(records, queries, s, start, n, readPair);
    ScanCloses(names, table, ok, n);
    if outcome.CigarFailure? {
      return currentID, readPair, start, rows, text, true;
    }
    text' := AppendRows(text, prefix, rows, outcome.rows);
    SliceOne(records, n);
    return newRead.qname, [newRead], n, rows + outcome.rows, text', false;
  }

  /** Evaluating the current group, the records `start` to `n`. */
  method CloseGroup(ghost records: seq<SamRead>, queries: seq<int>, s: Settings, ghost start: nat, ghost n: nat,
                    readPair: seq<SamRead>) returns (outcome: GroupResult)
    requires start <= n <= |records| && readPair == records[start..n] && queries != []
    requires GroupTable(records, queries, s)[start][n] != QualityOverrun
    ensures outcome == GroupTable(records, queries, s)[start][n]
  {
    GroupTableEntry(records, queries, s, start, n);
    outcome := EvaluateGroup(readPair, queries, s);
  }

  /** ReadSAM on a line split at tabs. */
  method ReadRecord(line: string) returns (r: SamRead)
    requires SamLine(line)
    ensures r == RecordOf(line)
  {
    var fields := StringSplit(line, '\t');
    r := ReadSAM(fields);
  }

  /** Writing a group's rows to the output. */
  method AppendRows(text: string, ghost prefix: string, ghost rows: seq<string>, newRows: seq<string>) returns (text': string)
    requires text == prefix + Concat(rows)
    ensures text' == prefix + Concat(rows + newRows)
  {
    ConcatAppend(rows, newRows);
    AppendAssoc(prefix, Concat(rows), Concat(newRows));
    text' := text + Concat(newRows);
  }

  // ---------------------------------------------------------------------------------
  // Properties of the model.

  /** From N, some vote lands on N exactly when there is a vote at all: the first one
      always does. So a group writes a row exactly when some site has a vote. */
  lemma {:induction false} LandsIffVoted(vs: seq<char>)
    ensures Lands('N', vs) <==> vs != []
  {
    if |vs| > 1 {
      LandsIffVoted(vs[..|vs| - 1]);
    }
  }

  /** Agreeing votes give their base. */
  lemma {:induction false} FoldAgreement(vs: seq<char>, b: char)
    requires vs != [] && forall k :: 0 <= k < |vs| ==> vs[k] == b
    ensures FoldVotes('N', vs) == b
  {
    if |vs| > 1 {
      FoldAgreement(vs[..|vs| - 1], b);
    }
  }

  /** A site ends as N or as one of the bases voted there. */
  lemma {:induction false} FoldVotesRange(vs: seq<char>)
    ensures FoldVotes('N', vs) == 'N' || FoldVotes('N', vs) in vs
  {
    if vs != [] {
      var init := vs[..|vs| - 1];
      FoldVotesRange(init);
      if FoldVotes('N', init) in init {
        assert init[..] == vs[..|vs| - 1];
        var k :| 0 <= k < |init| && init[k] == FoldVotes('N', init);
        assert vs[k] == init[k];
      }
    }
  }

  /** Two disagreeing votes reset the site to N, and a third vote sets it again: the
      concordance check only looks at the current value. */
  lemma FoldExamples()
    ensures FoldVotes('N', "AA") == 'A'
    ensures FoldVotes('N', "AC") == 'N'
    ensures FoldVotes('N', "ACG") == 'G'
    ensures FoldVotes('N', "AAC") == 'N'
  {
    assert "ACG"[..2] == "AC" && "AC"[..1] == "A" && "AAC"[..2] == "AA" && "AA"[..1] == "A";
  }

  /** A record votes at most once at a site, since the reference position passes the
      site after the one M tag that lands on it. */
  lemma {:induction false} ReadVotesAtMostOne(seqs: string, quality: string, e: string, pos: int, q: int, thr: int, k: nat)
    requires k <= |seqs| <= |e| && |seqs| <= |quality| + 1
    ensures |ReadVotes(seqs, quality, e, pos, q, thr, k)| <= 1
    ensures ReadVotes(seqs, quality, e, pos, q, thr, k) != [] ==> pos + MCount(e, k) > q
  {
    if k > 0 {
      ReadVotesAtMostOne(seqs, quality, e, pos, q, thr, k - 1);
      ReadVotesStep(seqs, quality, e, pos, q, thr, k - 1);
    }
  }

  /** A group casts at most one vote per record at a site. */
  lemma {:induction false} SiteVotesBound(group: seq<SamRead>, q: int, thr: int, j: nat)
    requires j <= |group| && ExpansionsFit(group) && forall i :: 0 <= i < |group| ==> QualityCovers(group[i])
    ensures |SiteVotes(group, q, thr, j)| <= j
  {
    if j > 0 {
      SiteVotesBound(group, q, thr, j - 1);
      var r := group[j - 1];
      SiteVotesStep(group, q, thr, j - 1);
      ReadVotesAtMostOne(r.bases, r.quality, Expanded(r.cigar), r.pos, q, thr, |r.bases|);
    }
  }

  /** For a read pair (at most two records), a site holds N without a vote, the one
      vote, or for two votes the base they agree on and N when they disagree (a first
      vote of N leaves the site to the second). */
  lemma PairConcordance(group: seq<SamRead>, q: int, thr: int)
    requires |group| <= 2 && ExpansionsFit(group) && forall i :: 0 <= i < |group| ==> QualityCovers(group[i])
    ensures var vs := SiteVotes(group, q, thr, |group|); var h := FoldVotes('N', vs);
      |vs| <= 2 &&
      (vs == [] ==> h == 'N') &&
      (|vs| == 1 ==> h == vs[0]) &&
      (|vs| == 2 ==> h == if vs[0] == 'N' then vs[1] else if vs[0] == vs[1] then vs[0] else 'N')
  {
    var vs := SiteVotes(group, q, thr, |group|);
    SiteVotesBound(group, q, thr, |group|);
    if |vs| == 2 {
      assert vs == [] + [vs[0]] + [vs[1]];
      FoldStep([], vs[0]);
      FoldStep([vs[0]], vs[1]);
    } else if |vs| == 1 {
      assert vs == [] + [vs[0]];
      FoldStep([], vs[0]);
    }
  }

  /** Some vote landed on N at one of the first `n` sites exactly when one of them has
      a vote. */
  lemma {:induction false} NonEmptyIffVoted(group: seq<SamRead>, queries: seq<int>, thr: int, n: nat)
    requires n <= |queries| && ExpansionsFit(group) && forall i :: 0 <= i < |group| ==> QualityCovers(group[i])
    ensures NonEmptyBelow(group, queries, thr, n) <==>
      exists i :: 0 <= i < n && SiteVotes(group, queries[i], thr, |group|) != []
  {
    if n > 0 {
      NonEmptyIffVoted(group, queries, thr, n - 1);
      var last := SiteVotes(group, queries[n - 1], thr, |group|);
      LandsIffVoted(last);
      if exists i :: 0 <= i < n && SiteVotes(group, queries[i], thr, |group|) != [] {
        var i :| 0 <= i < n && SiteVotes(group, queries[i], thr, |group|) != [];
        if i < n - 1 {
          assert NonEmptyBelow(group, queries, thr, n - 1);
        } else {
          assert Lands('N', last);
        }
      }
    }
  }

  /** An accepted group whose expansions fit writes one row, its haplotype, when some
      site has a vote, and nothing otherwise. */
  lemma GroupRowWritten(group: seq<SamRead>, queries: seq<int>, s: Settings)
    requires AllCover(group) && Accepted(group, s) && ExpansionsFit(group)
    ensures (exists i :: 0 <= i < |queries| && SiteVotes(group, queries[i], s.baseQThreshold, |group|) != []) ==>
      GroupOutcome(group, queries, s) == Emits([RowText(Haplotype(group, queries, s.baseQThreshold))])
    ensures (forall i :: 0 <= i < |queries| ==> SiteVotes(group, queries[i], s.baseQThreshold, |group|) == []) ==>
      GroupOutcome(group, queries, s) == Emits([])
  {
    NonEmptyIffVoted(group, queries, s.baseQThreshold, |queries|);
  }

  /** A group with a rejected record writes nothing and does not stop the run, whatever
      its CIGAR strings and quality strings. */
  lemma RejectedGroupSilent(group: seq<SamRead>, queries: seq<int>, s: Settings, i: nat)
    requires i < |group| && Rejects(group[i], s)
    ensures GroupOutcome(group, queries, s) == Emits([])
  {
  }

  /** The empty group, which the first record evaluates, writes nothing. */
  lemma EmptyGroupNoRow(queries: seq<int>, s: Settings)
    ensures GroupOutcome([], queries, s) == Emits([])
  {
    NonEmptyIffVoted([], queries, s.baseQThreshold, |queries|);
  }

  /** A row holds every site's character, each followed by a tab, and ends with a newline. */
  lemma RowTextShape(h: seq<char>)
    ensures |RowText(h)| == 2 * |h| + 1 && RowText(h)[2 * |h|] == '\n'
    ensures forall i :: 0 <= i < |h| ==> RowText(h)[2 * i] == h[i] && RowText(h)[2 * i + 1] == '\t'
  {
    TabbedShape(h, |h|);
  }

  lemma {:induction false} TabbedShape(h: seq<char>, n: nat)
    requires n <= |h|
    ensures |Tabbed(h, n)| == 2 * n
    ensures forall i :: 0 <= i < n ==> Tabbed(h, n)[2 * i] == h[i] && Tabbed(h, n)[2 * i + 1] == '\t'
  {
    if n > 0 {
      TabbedShape(h, n - 1);
    }
  }

  /** When every record carries the same non-empty query name, the first record closes
      the empty group and every later one joins the group it starts: no group is ever
      evaluated with records in it, so nothing is written. */
  lemma {:induction false} SingleNameNoRows(names: seq<string>, table: Table, ok: seq<bool>, n: nat)
    requires 0 < n <= |names| == |ok| && Square(table, |names|) && table[0][0] == Emits([])
    requires forall i :: 0 <= i < |ok| ==> ok[i]
    requires CName(names[0]) != [] && forall i :: 0 <= i < |names| ==> CName(names[i]) == CName(names[0])
    ensures ScanOver(names, table, ok, n) == Scan(names[0], 0, [], Going)
  {
    if n == 1 {
      assert ScanOver(names, table, ok, 0) == Scan("", 0, [], Going);
      ScanCloses(names, table, ok, 0);
    } else {
      SingleNameNoRows(names, table, ok, n - 1);
      ScanJoins(names, table, ok, n - 1);
    }
  }

  /** So a SAM file of one read pair writes no haplotype: the last group is never
      evaluated. */
  lemma OnePairNoRows(records: seq<SamRead>, queries: seq<int>, s: Settings, ok: seq<bool>)
    requires records != [] && |ok| == |records| && forall i :: 0 <= i < |ok| ==> ok[i]
    requires CName(records[0].qname) != [] && forall i :: 0 <= i < |records| ==> CName(records[i].qname) == CName(records[0].qname)
    ensures ScanReads(records, queries, s, ok, |records|).rows == [] && ScanReads(records, queries, s, ok, |records|).halt == Going
  {
    var names, table := Names(records), GroupTable(records, queries, s);
    GroupTableEntry(records, queries, s, 0, 0);
    assert records[0..0] == [];
    EmptyGroupNoRow(queries, s);
    SingleNameNoRows(names, table, ok, |records|);
  }
}
