/** Field splitting shared by the three tools (StringSplit): the line is cut at a
    delimiter character and runs of the delimiter are collapsed, so no field is empty. */
module Strings {

  /** The fields of `s`, scanning from the left; `field` holds the characters gathered
      since the last delimiter. A field is emitted when a delimiter or the end is reached
      and it is not empty. */
  function Scan(s: string, c: char, field: string): seq<string>
    decreases |s|
  {
    if s == [] then (if field == [] then [] else [field])
    else if s[0] == c then (if field == [] then [] else [field]) + Scan(s[1..], c, [])
    else Scan(s[1..], c, field + [s[0]])
  }

  /** The result of StringSplit(s, c). */
  function Split(s: string, c: char): seq<string>
  {
    Scan(s, c, [])
  }

  /** The value of a character as a signed 8-bit C `char`. */
  function SignedChar(ch: char): int
  {
    var b := ch as int % 256;
    if b < 128 then b else b - 256
  }

  /** `s[i]` of a C++ string, which reads the terminating NUL at `i == |s|`. */
  function At(s: string, i: nat): char
    requires i <= |s|
  {
    if i < |s| then s[i] else '\0'
  }

  lemma AppendAssoc<T>(a: seq<T>, b: seq<T>, c: seq<T>)
    ensures a + b + c == a + (b + c)
  {
  }

  /** The slice of one element. */
  lemma SliceOne<T>(a: seq<T>, i: nat)
    requires i < |a|
    ensures a[i..i + 1] == [a[i]]
  {
  }

  /** A slice grows by the element at its end. */
  lemma SliceSnoc<T>(a: seq<T>, i: nat, j: nat)
    requires i <= j < |a|
    ensures a[i..j + 1] == a[i..j] + [a[j]]
  {
  }

  /** `n` copies of `c`. */
  function Repeat(c: char, n: nat): (r: string)
    ensures |r| == n && forall i :: 0 <= i < n ==> r[i] == c
  {
    if n == 0 then [] else [c] + Repeat(c, n - 1)
  }

  lemma RepeatSnoc(c: char, n: nat)
    ensures Repeat(c, n + 1) == Repeat(c, n) + [c]
  {
  }

  /** `s` with every `c` removed. */
  function Remove(s: string, c: char): string
  {
    if s == [] then [] else (if s[0] == c then [] else [s[0]]) + Remove(s[1..], c)
  }

  /** The concatenation of a list of strings. */
  function Concat(fs: seq<string>): string
  {
    if fs == [] then [] else fs[0] + Concat(fs[1..])
  }

  /** The fields joined with one `c` between neighbours. */
  function Join(fs: seq<string>, c: char): string
  {
    if fs == [] then []
    else if |fs| == 1 then fs[0]
    else fs[0] + [c] + Join(fs[1..], c)
  }

  /** Fields that the splitter can return: non-empty and free of the delimiter. */
  predicate ProperFields(fs: seq<string>, c: char)
  {
    forall i :: 0 <= i < |fs| ==> fs[i] != [] && c !in fs[i]
  }

  /** The fields laid out with `gaps[i]` delimiters before field `i` and `gaps[|fs|]`
      after the last one. Every string is such a layout of its maximal runs. */
  function Layout(fs: seq<string>, gaps: seq<nat>, c: char): string
    requires |gaps| == |fs| + 1
    decreases |fs|
  {
    if fs == [] then Repeat(c, gaps[0])
    else Repeat(c, gaps[0]) + fs[0] + Layout(fs[1..], gaps[1..], c)
  }

  lemma {:induction false} ScanFields(s: string, c: char, field: string)
    requires c !in field
    ensures ProperFields(Scan(s, c, field), c)
    decreases |s|
  {
    if s == [] {
    } else if s[0] == c {
      ScanFields(s[1..], c, []);
    } else {
      ScanFields(s[1..], c, field + [s[0]]);
    }
  }

  /** No field is empty and no field contains the delimiter. */
  lemma SplitFieldsProper(s: string, c: char)
    ensures ProperFields(Split(s, c), c)
  {
    ScanFields(s, c, []);
  }

  lemma {:induction false} ConcatAppend(a: seq<string>, b: seq<string>)
    ensures Concat(a + b) == Concat(a) + Concat(b)
  {
    if a == [] {
      assert a + b == b;
    } else {
      assert (a + b)[1..] == a[1..] + b;
      ConcatAppend(a[1..], b);
    }
  }

  lemma {:induction false} ScanConcat(s: string, c: char, field: string)
    ensures Concat(Scan(s, c, field)) == field + Remove(s, c)
    decreases |s|
  {
    if s == [] {
      assert Concat([field]) == field + Concat([]);
    } else if s[0] == c {
      var head: seq<string> := if field == [] then [] else [field];
      ScanConcat(s[1..], c, []);
      ConcatAppend(head, Scan(s[1..], c, []));
      assert Concat(head) == field by {
        if field != [] { assert Concat([field]) == field + Concat([]); }
      }
    } else {
      ScanConcat(s[1..], c, field + [s[0]]);
    }
  }

  /** Concatenating the fields gives back the line with every delimiter removed. */
  lemma SplitConcat(s: string, c: char)
    ensures Concat(Split(s, c)) == Remove(s, c)
  {
    ScanConcat(s, c, []);
  }

  lemma {:induction false} ScanDelimiters(n: nat, t: string, c: char)
    ensures Scan(Repeat(c, n) + t, c, []) == Scan(t, c, [])
  {
    if n > 0 {
      assert (Repeat(c, n) + t)[1..] == Repeat(c, n - 1) + t;
      ScanDelimiters(n - 1, t, c);
    } else {
      assert Repeat(c, n) + t == t;
    }
  }

  lemma {:induction false} ScanRun(f: string, t: string, c: char, field: string)
    requires c !in f
    ensures Scan(f + t, c, field) == Scan(t, c, field + f)
    decreases |f|
  {
    if f == [] {
      assert f + t == t && field + f == field;
    } else {
      assert (f + t)[0] == f[0] && (f + t)[1..] == f[1..] + t;
      assert field + [f[0]] + f[1..] == field + f;
      ScanRun(f[1..], t, c, field + [f[0]]);
    }
  }

  /** The split of a layout is its fields, whatever the number of delimiters at the
      ends and however many (at least one) stand between neighbouring fields: the
      splitter returns exactly the maximal delimiter-free runs, in order. */
  lemma {:induction false} SplitLayout(fs: seq<string>, gaps: seq<nat>, c: char)
    requires |gaps| == |fs| + 1 && ProperFields(fs, c)
    requires forall i :: 0 < i < |fs| ==> gaps[i] >= 1
    ensures Split(Layout(fs, gaps, c), c) == fs
    decreases |fs|
  {
    if fs == [] {
      ScanDelimiters(gaps[0], [], c);
      assert Repeat(c, gaps[0]) + [] == Repeat(c, gaps[0]);
    } else {
      var rest := Layout(fs[1..], gaps[1..], c);
      assert Repeat(c, gaps[0]) + fs[0] + rest == Repeat(c, gaps[0]) + (fs[0] + rest);
      ScanDelimiters(gaps[0], fs[0] + rest, c);
      ScanRun(fs[0], rest, c, []);
      assert [] + fs[0] == fs[0];
      if gaps[1] == 0 {
        assert fs[1..] == [];
        assert rest == [] by { assert Repeat(c, 0) == []; }
      } else {
        var gaps' := [gaps[1] - 1] + gaps[2..];
        var rest' := Layout(fs[1..], gaps', c);
        assert rest == [c] + rest' by {
          if fs[1..] == [] {
            assert Repeat(c, gaps[1]) == [c] + Repeat(c, gaps[1] - 1);
          } else {
            assert Repeat(c, gaps[1]) == [c] + Repeat(c, gaps[1] - 1);
            assert fs[1..][1..] == fs[2..] && gaps[1..][1..] == gaps'[1..];
          }
        }
        assert rest[0] == c && rest[1..] == rest';
        SplitLayout(fs[1..], gaps', c);
      }
    }
  }

  /** Joining proper fields with single delimiters and splitting again is the identity. */
  lemma {:induction false} SplitJoin(fs: seq<string>, c: char)
    requires ProperFields(fs, c)
    ensures Split(Join(fs, c), c) == fs
    decreases |fs|
  {
    if fs == [] {
    } else if |fs| == 1 {
      ScanRun(fs[0], [], c, []);
      assert fs[0] + [] == fs[0] && [] + fs[0] == fs[0];
    } else {
      var rest := Join(fs[1..], c);
      assert fs[0] + [c] + rest == fs[0] + ([c] + rest);
      ScanRun(fs[0], [c] + rest, c, []);
      assert [] + fs[0] == fs[0];
      assert ([c] + rest)[0] == c && ([c] + rest)[1..] == rest;
      SplitJoin(fs[1..], c);
    }
  }

  /** The scan of `s` from index `i` on: Scan(s[i..], c, field), stated by index. */
  function ScanFrom(s: string, i: nat, c: char, field: string): seq<string>
    requires i <= |s|
    decreases |s| - i
  {
    if i == |s| then (if field == [] then [] else [field])
    else if s[i] == c then (if field == [] then [] else [field]) + ScanFrom(s, i + 1, c, [])
    else ScanFrom(s, i + 1, c, field + [s[i]])
  }

  lemma {:induction false} ScanFromIsScan(s: string, i: nat, c: char, field: string)
    requires i <= |s|
    ensures ScanFrom(s, i, c, field) == Scan(s[i..], c, field)
    decreases |s| - i
  {
    if i < |s| {
      assert s[i..][0] == s[i] && s[i..][1..] == s[i + 1..];
      if s[i] == c {
        ScanFromIsScan(s, i + 1, c, []);
      } else {
        ScanFromIsScan(s, i + 1, c, field + [s[i]]);
      }
    }
  }

  /** StringSplit as the source writes it: skip leading delimiters, gather a field up
      to the next delimiter, keep it if it is not empty, step over the delimiter. */
  method StringSplit(s: string, c: char) returns (splits: seq<string>)
    ensures splits == Split(s, c)
  {
    ScanFromIsScan(s, 0, c, []);
    assert s[0..] == s;
    splits := [];
    var s0: string := [];
    var i: nat := 0;
    while i < |s|
      invariant i <= |s| + 1 && s0 == []
      invariant splits + (if i <= |s| then ScanFrom(s, i, c, []) else []) == Split(s, c)
      decreases |s| + 1 - i
    {
      ghost var start := i;
      while s[i] == c && i < |s| - 1
        invariant start <= i < |s|
        invariant splits + ScanFrom(s, i, c, []) == Split(s, c)
      {
        assert [] + ScanFrom(s, i + 1, c, []) == ScanFrom(s, i + 1, c, []);
        i := i + 1;
      }
      while i < |s| && s[i] != c
        invariant start <= i <= |s|
        invariant splits + ScanFrom(s, i, c, s0) == Split(s, c)
      {
        s0 := s0 + [s[i]];
        i := i + 1;
      }
      ghost var after := if i < |s| then ScanFrom(s, i + 1, c, []) else [];
      assert ScanFrom(s, i, c, s0) == (if s0 == [] then [] else [s0]) + after;
      if |s0| > 0 {
        assert splits + ([s0] + after) == (splits + [s0]) + after;
        splits := splits + [s0];
        s0 := [];
      } else {
        assert [] + after == after;
      }
      i := i + 1;
    }
  }
}
