/** The consensus rule of the base tally: a majority vote over A, C, G and T that starts
    from 'N', and the 70-column wrapping of the consensus sequence. */
module Consensus {
  import opened Strings

  /** The bases in the order in which they are reported and compared. */
  const Bases := "ACGT"

  /** The index into Bases of the choice after the first `k` bases have been compared,
      or -1 while 'N' holds. A base replaces the current choice only when its count is
      strictly greater than the count of the current choice; 'N' stands on `nCount`,
      the tally of reads that showed an N at the position. */
  function LeaderAfter(nCount: nat, counts: seq<nat>, k: nat): (r: int)
    requires |counts| == 4 && k <= 4
    ensures -1 <= r < k
  {
    if k == 0 then -1
    else
      var m := LeaderAfter(nCount, counts, k - 1);
      if counts[k - 1] > (if m < 0 then nCount else counts[m]) then k - 1 else m
  }

  /** The consensus base of a position, given the count of N and those of A, C, G, T. */
  function ConsensusBase(nCount: nat, counts: seq<nat>): char
    requires |counts| == 4
  {
    var r := LeaderAfter(nCount, counts, 4);
    if r < 0 then 'N' else Bases[r]
  }

  /** After `k` comparisons the choice is 'N' exactly when none of the first `k` counts
      exceeds the N count; otherwise it is the first of them that reaches their maximum,
      and that maximum exceeds the N count. */
  lemma {:induction false} LeaderAfterIsFirstMaximum(nCount: nat, counts: seq<nat>, k: nat)
    requires |counts| == 4 && k <= 4
    ensures LeaderAfter(nCount, counts, k) == -1 <==> forall j :: 0 <= j < k ==> counts[j] <= nCount
    ensures var r := LeaderAfter(nCount, counts, k);
      r >= 0 ==>
        counts[r] > nCount &&
        (forall j :: 0 <= j < r ==> counts[j] < counts[r]) &&
        (forall j :: r < j < k ==> counts[j] <= counts[r])
  {
    if k > 0 {
      LeaderAfterIsFirstMaximum(nCount, counts, k - 1);
    }
  }

  /** The consensus is 'N' exactly when no base outnumbers the N reads (in particular
      when every count is zero); otherwise it is the first base, in A, C, G, T order,
      whose count is maximal, so ties keep the earlier base. */
  lemma ConsensusBaseIsFirstMaximum(nCount: nat, counts: seq<nat>)
    requires |counts| == 4
    ensures ConsensusBase(nCount, counts) == 'N' <==> forall j :: 0 <= j < 4 ==> counts[j] <= nCount
    ensures ConsensusBase(nCount, counts) != 'N' ==>
      exists r :: 0 <= r < 4 && ConsensusBase(nCount, counts) == Bases[r] &&
        counts[r] > nCount &&
        (forall j :: 0 <= j < r ==> counts[j] < counts[r]) &&
        (forall j :: r < j < 4 ==> counts[j] <= counts[r])
  {
    LeaderAfterIsFirstMaximum(nCount, counts, 4);
  }

  /** `s` with a line break after every 70th character. */
  function Wrapped(s: string): string
    decreases |s|
  {
    if |s| < 70 then s else s[..70] + "\n" + Wrapped(s[70..])
  }

  /** Appending one base to the sequence appends it to the wrapped text, followed by a
      line break when it is a 70th base. */
  lemma {:induction false} WrappedSnoc(p: string, c: char)
    ensures Wrapped(p + [c]) == Wrapped(p) + [c] + (if (|p| + 1) % 70 == 0 then "\n" else "")
    decreases |p|
  {
    if |p| >= 70 {
      assert (p + [c])[..70] == p[..70];
      assert (p + [c])[70..] == p[70..] + [c];
      WrappedSnoc(p[70..], c);
      assert (|p[70..]| + 1) % 70 == (|p| + 1) % 70;
    } else if |p| == 69 {
      assert (p + [c])[..70] == p + [c];
      assert (p + [c])[70..] == [];
    }
  }

  /** The wrapping adds one line break per full 70 characters. */
  lemma {:induction false} WrappedLength(s: string)
    ensures |Wrapped(s)| == |s| + |s| / 70
    decreases |s|
  {
    if |s| >= 70 {
      WrappedLength(s[70..]);
      DivStep(|s|);
    }
  }

  lemma DivStep(n: nat)
    requires n >= 70
    ensures (n - 70) / 70 + 1 == n / 70
  {
  }

  /** Removing the line breaks gives the sequence back. */
  lemma {:induction false} WrappedContents(s: string)
    requires '\n' !in s
    ensures Remove(Wrapped(s), '\n') == s
    decreases |s|
  {
    if |s| < 70 {
      RemoveAbsent(s, '\n');
    } else {
      var head, rest := s[..70], s[70..];
      assert s == head + rest;
      assert Wrapped(s) == head + ("\n" + Wrapped(rest));
      RemoveBreak(head, Wrapped(rest), '\n');
      WrappedContents(rest);
    }
  }

  /** Removing `c` from a text free of `c`, then `c`, then `tail`. */
  lemma RemoveBreak(head: string, tail: string, c: char)
    requires c !in head
    ensures Remove(head + ([c] + tail), c) == head + Remove(tail, c)
  {
    RemoveAppend(head, [c] + tail, c);
    RemoveAbsent(head, c);
    assert ([c] + tail)[0] == c && ([c] + tail)[1..] == tail;
  }

  lemma {:induction false} RemoveAbsent(s: string, c: char)
    requires c !in s
    ensures Remove(s, c) == s
  {
    if s != [] {
      assert s == [s[0]] + s[1..];
      RemoveAbsent(s[1..], c);
    }
  }

  lemma {:induction false} RemoveAppend(a: string, b: string, c: char)
    ensures Remove(a + b, c) == Remove(a, c) + Remove(b, c)
  {
    if a == [] {
      assert a + b == b;
    } else {
      assert (a + b)[0] == a[0] && (a + b)[1..] == a[1..] + b;
      RemoveAppend(a[1..], b, c);
    }
  }
}
