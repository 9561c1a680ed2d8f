/** The CIGAR string of a SAM alignment record (section 1.4 of the SAM format
    specification) and its expansion into one operation tag per sequence base. */
module Cigar {
  import opened Strings
  import opened Decimal

  /** Every operation letter the expander knows. */
  const Operations := "MIDNSHP=X"
  /** The operations whose bases appear in the read sequence. */
  const Consuming := "MIS=X"
  /** The operations the tools treat as an indel. */
  const IndelOperations := "IDP"

  /** C's `strchr(chars, ch) != NULL`: the search also finds the terminating NUL of `chars`,
      so the NUL character counts as a member of every character set. */
  predicate StrchrFinds(chars: string, ch: char)
  {
    ch == '\0' || ch in chars
  }

  /** `unsigned int Num = atoi(digits)`: the count of a run, reduced to 32 bits. */
  function RunCount(digits: string): nat
  {
    Atoi(digits) % 0x1_0000_0000
  }

  /** The expansion of the rest `s` of a CIGAR string when `pending` holds the characters
      read since the last operation letter. Any character that is not an operation
      letter joins the pending count; a consuming letter emits that many copies of
      itself; every operation letter clears the count. */
  function ExpandFrom(s: string, pending: string): string
    decreases |s|
  {
    if s == [] then []
    else if !StrchrFinds(Operations, s[0]) then ExpandFrom(s[1..], pending + [s[0]])
    else if StrchrFinds(Consuming, s[0]) then Repeat(s[0], RunCount(pending)) + ExpandFrom(s[1..], [])
    else ExpandFrom(s[1..], [])
  }

  /** The result of ExpandCIGAR(cigar). */
  function Expanded(cigar: string): string
  {
    ExpandFrom(cigar, [])
  }

  /** One run of a CIGAR string: a length and an operation letter. */
  datatype CigarRun = CigarRun(length: nat, op: char)

  /** A run list that a CIGAR string can spell: known letters, 32-bit lengths. */
  predicate ValidRuns(runs: seq<CigarRun>)
  {
    forall i :: 0 <= i < |runs| ==> runs[i].op in Operations && runs[i].length < 0x1_0000_0000
  }

  /** The CIGAR text of a run list, e.g. 1S5M4S. */
  function Render(runs: seq<CigarRun>): string
  {
    if runs == [] then [] else NatText(runs[0].length) + [runs[0].op] + Render(runs[1..])
  }

  /** One tag per base the runs place in the read: each consuming run contributes
      `length` copies of its letter, in run order; D, N, H and P runs contribute nothing. */
  function Footprint(runs: seq<CigarRun>): string
  {
    if runs == [] then []
    else (if runs[0].op in Consuming then Repeat(runs[0].op, runs[0].length) else []) + Footprint(runs[1..])
  }

  /** The sum of the lengths of the consuming runs. */
  function ConsumedLength(runs: seq<CigarRun>): nat
  {
    if runs == [] then 0
    else (if runs[0].op in Consuming then runs[0].length else 0) + ConsumedLength(runs[1..])
  }

  /** The number of characters of `cigar` that the indel test finds in "IDP". */
  function IndelCount(cigar: string): nat
  {
    if cigar == [] then 0
    else (if StrchrFinds(IndelOperations, cigar[0]) then 1 else 0) + IndelCount(cigar[1..])
  }

  /** The expansion from index `i` on: ExpandFrom(cigar[i..], pending), stated by index. */
  function ExpandAt(cigar: string, i: nat, pending: string): string
    requires i <= |cigar|
    decreases |cigar| - i
  {
    if i == |cigar| then []
    else if !StrchrFinds(Operations, cigar[i]) then ExpandAt(cigar, i + 1, pending + [cigar[i]])
    else if StrchrFinds(Consuming, cigar[i]) then Repeat(cigar[i], RunCount(pending)) + ExpandAt(cigar, i + 1, [])
    else ExpandAt(cigar, i + 1, [])
  }

  lemma {:induction false} ExpandAtIsExpandFrom(cigar: string, i: nat, pending: string)
    requires i <= |cigar|
    ensures ExpandAt(cigar, i, pending) == ExpandFrom(cigar[i..], pending)
    decreases |cigar| - i
  {
    if i < |cigar| {
      assert cigar[i..][0] == cigar[i] && cigar[i..][1..] == cigar[i + 1..];
      var p' := if !StrchrFinds(Operations, cigar[i]) then pending + [cigar[i]] else [];
      ExpandAtIsExpandFrom(cigar, i + 1, p');
    }
  }

  /** The inner loop of ExpandCIGAR: `num` copies of `op` appended. */
  method AppendCopies(expanded: string, op: char, num: nat) returns (r: string)
    ensures r == expanded + Repeat(op, num)
  {
    r := expanded;
    for j := 0 to num
      invariant r == expanded + Repeat(op, j)
    {
      RepeatSnoc(op, j);
      r := r + [op];
    }
  }

  /** ExpandCIGAR: digits (and any other non-operation character) gather in NumBases;
      a consuming letter appends that many copies of itself; every operation letter
      resets NumBases. */
  method ExpandCIGAR(cigar: string) returns (expanded: string)
    ensures expanded == Expanded(cigar)
  {
    ExpandAtIsExpandFrom(cigar, 0, []);
    assert cigar[0..] == cigar;
    expanded := [];
    var numBases: string := [];
    for i := 0 to |cigar|
      invariant expanded + ExpandAt(cigar, i, numBases) == Expanded(cigar)
    {
      if !StrchrFinds(Operations, cigar[i]) {
        numBases := numBases + [cigar[i]];
      } else if StrchrFinds(Consuming, cigar[i]) {
        var num := RunCount(numBases);
        ghost var before := expanded;
        ghost var rest := ExpandAt(cigar, i + 1, []);
        expanded := AppendCopies(expanded, cigar[i], num);
        assert before + (Repeat(cigar[i], num) + rest) == expanded + rest;
        numBases := [];
      } else {
        numBases := [];
      }
    }
  }

  /** The indel-counting loop of both tools. */
  method CountIndelOperations(cigar: string) returns (n: nat)
    ensures n == IndelCount(cigar)
  {
    n := 0;
    for i := 0 to |cigar|
      invariant n + IndelCount(cigar[i..]) == IndelCount(cigar)
    {
      assert cigar[i..][0] == cigar[i] && cigar[i..][1..] == cigar[i + 1..];
      if StrchrFinds(IndelOperations, cigar[i]) {
        n := n + 1;
      }
    }
  }

  lemma {:induction false} ExpandFromTags(s: string, pending: string)
    ensures forall k :: 0 <= k < |ExpandFrom(s, pending)| ==> StrchrFinds(Consuming, ExpandFrom(s, pending)[k])
    ensures '\0' !in s ==> forall k :: 0 <= k < |ExpandFrom(s, pending)| ==> ExpandFrom(s, pending)[k] in Consuming
    decreases |s|
  {
    if s != [] {
      var p' := if !StrchrFinds(Operations, s[0]) then pending + [s[0]] else [];
      ExpandFromTags(s[1..], p');
      assert '\0' !in s ==> '\0' !in s[1..];
    }
  }

  /** Every tag of the expansion is one of M, I, S, = and X (or a NUL that the CIGAR
      string itself held, since strchr finds NUL in every set). */
  lemma ExpandedTags(cigar: string)
    ensures forall k :: 0 <= k < |Expanded(cigar)| ==> StrchrFinds(Consuming, Expanded(cigar)[k])
    ensures '\0' !in cigar ==> forall k :: 0 <= k < |Expanded(cigar)| ==> Expanded(cigar)[k] in Consuming
  {
    ExpandFromTags(cigar, []);
  }

  lemma {:induction false} ExpandDigits(d: string, t: string, pending: string)
    requires AllDigits(d)
    ensures ExpandFrom(d + t, pending) == ExpandFrom(t, pending + d)
    decreases |d|
  {
    if d == [] {
      assert d + t == t && pending + d == pending;
    } else {
      assert (d + t)[0] == d[0] && (d + t)[1..] == d[1..] + t;
      assert !StrchrFinds(Operations, d[0]);
      assert pending + [d[0]] + d[1..] == pending + d;
      ExpandDigits(d[1..], t, pending + [d[0]]);
    }
  }

  /** One run at the head of the text: its digits gather, then its letter acts on them. */
  lemma ExpandRun(r: CigarRun, rest: string)
    requires r.op in Operations && r.length < 0x1_0000_0000
    ensures ExpandFrom(NatText(r.length) + [r.op] + rest, []) ==
      (if r.op in Consuming then Repeat(r.op, r.length) else []) + ExpandFrom(rest, [])
  {
    var d := NatText(r.length);
    var t := [r.op] + rest;
    assert d + [r.op] + rest == d + t;
    ExpandDigits(d, t, []);
    assert [] + d == d;
    assert t[0] == r.op && t[1..] == rest;
    AtoiNatText(r.length);
    assert RunCount(d) == r.length;
  }

  /** The expansion of a CIGAR string spelled from runs is the runs' footprint: the
      tags keep the run order and the run letters. */
  lemma {:induction false} ExpandRender(runs: seq<CigarRun>)
    requires ValidRuns(runs)
    ensures Expanded(Render(runs)) == Footprint(runs)
  {
    if runs != [] {
      ExpandRun(runs[0], Render(runs[1..]));
      ExpandRender(runs[1..]);
    }
  }

  lemma {:induction false} FootprintLength(runs: seq<CigarRun>)
    ensures |Footprint(runs)| == ConsumedLength(runs)
  {
    if runs != [] {
      FootprintLength(runs[1..]);
    }
  }

  /** The length of the expansion is the sum of the counts before M, I, S, = and X. */
  lemma ExpandedLength(runs: seq<CigarRun>)
    requires ValidRuns(runs)
    ensures |Expanded(Render(runs))| == ConsumedLength(runs)
  {
    ExpandRender(runs);
    FootprintLength(runs);
  }

  /** The example of the source's own comment. */
  lemma ExpandExample()
    ensures Expanded("1S5M4S") == "SMMMMMSSSS"
  {
    var runs := [CigarRun(1, 'S'), CigarRun(5, 'M'), CigarRun(4, 'S')];
    assert Render(runs) == "1S5M4S" by {
      assert NatText(1) == "1" && NatText(5) == "5" && NatText(4) == "4";
    }
    ExpandRender(runs);
    assert Footprint(runs) == "SMMMMMSSSS" by {
      assert Repeat('S', 1) == "S";
      assert Repeat('M', 5) == "MMMMM";
      assert Repeat('S', 4) == "SSSS";
    }
  }
}
