/** The standard genetic code (NCBI translation table 1) as the annotator builds it: a
    table from three bases to a one-letter amino-acid code, filled in T, C, A, G order. */
module Codons {

  /** The bases in the order in which the table enumerates them. */
  const CodonBases := "TCAG"

  /** The amino acids of the codons that start with T, C, A and G respectively. */
  const TCodons := "FFLLSSSSYY**CC*W"
  const CCodons := "LLLLPPPPHHQQRRRR"
  const ACodons := "IIIMTTTTNNKKSSRR"
  const GCodons := "VVVVAAAADDEEGGGG"

  /** The amino acid of the codon (CodonBases[i], CodonBases[j], CodonBases[k]) is the
      character at 16 * i + 4 * j + k; '*' marks a stop codon. */
  const CodonsToAAs := TCodons + CCodons + ACodons + GCodons

  type Codon = (char, char, char)

  /** The codon of indices `i`, `j` and `k` into CodonBases. */
  function CodonOf(i: nat, j: nat, k: nat): Codon
    requires i < 4 && j < 4 && k < 4
  {
    (CodonBases[i], CodonBases[j], CodonBases[k])
  }

  /** The position of a base in CodonBases. */
  function BaseIndex(b: char): (i: nat)
    requires b in CodonBases
    ensures i < 4 && CodonBases[i] == b
  {
    if b == 'T' then 0 else if b == 'C' then 1 else if b == 'A' then 2 else 3
  }

  /** The entries of the first `n` codons in enumeration order are in place, and no key
      holds a character other than T, C, A and G. */
  predicate FilledBelow(table: map<Codon, char>, n: nat)
  {
    (forall i: nat, j: nat, k: nat :: i < 4 && j < 4 && k < 4 && 16 * i + 4 * j + k < n ==>
      CodonOf(i, j, k) in table && table[CodonOf(i, j, k)] == CodonsToAAs[16 * i + 4 * j + k]) &&
    (forall key :: key in table ==> key.0 in CodonBases && key.1 in CodonBases && key.2 in CodonBases)
  }

  /** The complete code: all 64 codons over T, C, A and G, and nothing else. */
  predicate StandardTable(table: map<Codon, char>)
  {
    FilledBelow(table, 64)
  }

  /** The standard code as a map: every codon over T, C, A and G to the character of its
      enumeration index. */
  function StandardCode(): map<Codon, char>
  {
    map c | c in AllCodons() :: CodonsToAAs[16 * BaseIndex(c.0) + 4 * BaseIndex(c.1) + BaseIndex(c.2)]
  }

  /** The 64 codons over T, C, A and G. */
  function AllCodons(): (cs: set<Codon>)
    ensures forall c :: c in cs <==> c.0 in CodonBases && c.1 in CodonBases && c.2 in CodonBases
  {
    set b0, b1, b2 | b0 in CodonBases && b1 in CodonBases && b2 in CodonBases :: (b0, b1, b2)
  }

  /** A complete table is the standard code. */
  lemma StandardTableIsCode(table: map<Codon, char>)
    requires StandardTable(table)
    ensures table == StandardCode()
  {
    var code := StandardCode();
    forall c | c in code
      ensures c in table && table[c] == code[c]
    {
      assert c == CodonOf(BaseIndex(c.0), BaseIndex(c.1), BaseIndex(c.2));
    }
    assert table.Keys == code.Keys;
  }

  /** What the table lookup `codontable[b0][b1][b2]` reads: the entry, or the NUL that
      a missing entry of a map of characters holds by default. */
  function Lookup(table: map<Codon, char>, codon: Codon): char
  {
    if codon in table then table[codon] else '\0'
  }

  /** InitializeCodonTable: the triple loop over T, C, A, G with its running codon index. */
  method InitializeCodonTable() returns (table: map<Codon, char>)
    ensures StandardTable(table) && table == StandardCode()
  {
    table := map[];
    var iCodon := 0;
    for i := 0 to 4
      invariant iCodon == 16 * i && FilledBelow(table, iCodon)
    {
      for j := 0 to 4
        invariant iCodon == 16 * i + 4 * j && FilledBelow(table, iCodon)
      {
        for k := 0 to 4
          invariant iCodon == 16 * i + 4 * j + k && FilledBelow(table, iCodon)
        {
          FillStep(table, i, j, k);
          table := table[CodonOf(i, j, k) := CodonsToAAs[iCodon]];
          iCodon := iCodon + 1;
        }
      }
    }
    StandardTableIsCode(table);
  }

  /** Entering the codon of indices `i`, `j`, `k` extends the filled prefix by one. */
  lemma FillStep(table: map<Codon, char>, i: nat, j: nat, k: nat)
    requires i < 4 && j < 4 && k < 4 && FilledBelow(table, 16 * i + 4 * j + k)
    ensures FilledBelow(table[CodonOf(i, j, k) := CodonsToAAs[16 * i + 4 * j + k]], 16 * i + 4 * j + k + 1)
  {
    var n := 16 * i + 4 * j + k;
    var t := table[CodonOf(i, j, k) := CodonsToAAs[n]];
    forall i': nat, j': nat, k': nat | i' < 4 && j' < 4 && k' < 4 && 16 * i' + 4 * j' + k' < n + 1
      ensures CodonOf(i', j', k') in t && t[CodonOf(i', j', k')] == CodonsToAAs[16 * i' + 4 * j' + k']
    {
      EnumerationInjective(i, j, k, i', j', k');
      if 16 * i' + 4 * j' + k' < n {
        CodonOfInjective(i, j, k, i', j', k');
        assert CodonOf(i', j', k') in table && table[CodonOf(i', j', k')] == CodonsToAAs[16 * i' + 4 * j' + k'];
      }
    }
  }

  /** Distinct indices have distinct positions in the enumeration. */
  lemma EnumerationInjective(i: nat, j: nat, k: nat, i': nat, j': nat, k': nat)
    requires i < 4 && j < 4 && k < 4 && i' < 4 && j' < 4 && k' < 4
    ensures 16 * i + 4 * j + k == 16 * i' + 4 * j' + k' <==> i == i' && j == j' && k == k'
  {
  }

  /** Distinct indices give distinct codons, since the four bases differ. */
  lemma CodonOfInjective(i: nat, j: nat, k: nat, i': nat, j': nat, k': nat)
    requires i < 4 && j < 4 && k < 4 && i' < 4 && j' < 4 && k' < 4
    ensures CodonOf(i, j, k) == CodonOf(i', j', k') <==> i == i' && j == j' && k == k'
  {
  }

  /** TranslateCodon: the table entry of a three-character codon, 'X' for any other length. */
  function TranslateCodon(codon: string, table: map<Codon, char>): char
  {
    if |codon| == 3 then Lookup(table, (codon[0], codon[1], codon[2])) else 'X'
  }

  /** With the standard table, a codon over T, C, A and G translates to the character the
      enumeration assigns it, and any other three characters read the NUL default. */
  lemma StandardLookup(table: map<Codon, char>, codon: Codon)
    requires StandardTable(table)
    ensures codon.0 in CodonBases && codon.1 in CodonBases && codon.2 in CodonBases ==>
      Lookup(table, codon) == CodonsToAAs[16 * BaseIndex(codon.0) + 4 * BaseIndex(codon.1) + BaseIndex(codon.2)]
    ensures !(codon.0 in CodonBases && codon.1 in CodonBases && codon.2 in CodonBases) ==>
      Lookup(table, codon) == '\0'
  {
    if codon.0 in CodonBases && codon.1 in CodonBases && codon.2 in CodonBases {
      var i, j, k := BaseIndex(codon.0), BaseIndex(codon.1), BaseIndex(codon.2);
      assert CodonOf(i, j, k) == codon;
    }
  }

  /** With the standard table, the translation is 'X' exactly when the codon does not
      have three characters: no table entry is 'X' and a miss reads NUL. */
  lemma TranslateIsX(codon: string, table: map<Codon, char>)
    requires StandardTable(table)
    ensures TranslateCodon(codon, table) == 'X' <==> |codon| != 3
  {
    if |codon| == 3 {
      var c := (codon[0], codon[1], codon[2]);
      StandardLookup(table, c);
      NoX();
    }
  }

  /** No codon of the standard code is written 'X'. */
  lemma NoX()
    ensures forall t :: 0 <= t < |CodonsToAAs| ==> CodonsToAAs[t] != 'X'
  {
  }

  /** Three codons of the standard code: TTT is phenylalanine, TAA a stop, ATG methionine. */
  lemma TranslateExamples(table: map<Codon, char>)
    requires StandardTable(table)
    ensures TranslateCodon("TTT", table) == 'F'
    ensures TranslateCodon("TAA", table) == '*'
    ensures TranslateCodon("ATG", table) == 'M'
    ensures TranslateCodon("NNN", table) == '\0'
  {
    StandardLookup(table, ('T', 'T', 'T'));
    StandardLookup(table, ('T', 'A', 'A'));
    StandardLookup(table, ('A', 'T', 'G'));
    StandardLookup(table, ('N', 'N', 'N'));
  }
}
