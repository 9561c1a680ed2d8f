/** The reference reader of the base tally (ReadMultiFasta): a line starting with '>'
    opens a sequence and names it by the first word of the line without the '>', and
    every other line is appended to the open sequence. */
module Fasta {
  import opened Strings

  /** The reader's variables after some lines: the names, the sequences that are closed,
      the open sequence and the number of header lines. */
  datatype Reading = Reading(names: seq<string>, sequences: seq<string>, sequence: string, count: nat)

  /** `line[0] == '>'`, where an empty line reads its terminating NUL. */
  predicate IsHeader(line: string)
  {
    At(line, 0) == '>'
  }

  /** A header line whose first word keeps a character other than '>', so that both
      splits that extract the name have a first field. */
  predicate NamedHeader(line: string)
  {
    Split(line, ' ') != [] && Split(Split(line, ' ')[0], '>') != []
  }

  /** Every header line can be named. */
  predicate Readable(lines: seq<string>)
  {
    forall k :: 0 <= k < |lines| && IsHeader(lines[k]) ==> NamedHeader(lines[k])
  }

  /** The name of a header line: its first space-separated word, split at '>'. */
  function NameOf(line: string): string
    requires NamedHeader(line)
  {
    Split(Split(line, ' ')[0], '>')[0]
  }

  /** One line: a header closes the open sequence (unless it is the first header, which
      drops the lines read before it) and opens an empty one; any other line is added to
      the open sequence. */
  function ReadLine(r: Reading, line: string): Reading
    requires IsHeader(line) ==> NamedHeader(line)
  {
    if IsHeader(line) then
      Reading(r.names + [NameOf(line)], if r.count != 0 then r.sequences + [r.sequence] else r.sequences, "", r.count + 1)
    else Reading(r.names, r.sequences, r.sequence + line, r.count)
  }

  /** The reader after all of `lines`. */
  function ReadLines(lines: seq<string>): Reading
    requires Readable(lines)
  {
    if lines == [] then Reading([], [], "", 0)
    else ReadLine(ReadLines(lines[..|lines| - 1]), lines[|lines| - 1])
  }

  /** What the reader returns: the names, and the sequences with the open one closed at
      the end of the file. */
  function FastaOf(lines: seq<string>): (seq<string>, seq<string>)
    requires Readable(lines)
  {
    var r := ReadLines(lines);
    (r.names, r.sequences + [r.sequence])
  }

  method ReadMultiFasta(lines: seq<string>) returns (names: seq<string>, sequences: seq<string>)
    requires Readable(lines)
    ensures (names, sequences) == FastaOf(lines)
  {
    names, sequences := [], [];
    var sequence := "";
    var numSequences := 0;
    for i := 0 to |lines|
      invariant ReadLines(lines[..i]) == Reading(names, sequences, sequence, numSequences)
    {
      var line := lines[i];
      assert lines[..i + 1][..i] == lines[..i];
      if At(line, 0) == '>' {
        if numSequences != 0 {
          sequences := sequences + [sequence];
        }
        numSequences := numSequences + 1;
        sequence := "";
        var words := StringSplit(line, ' ');
        var parts := StringSplit(words[0], '>');
        names := names + [parts[0]];
        continue;
      }
      sequence := sequence + line;
    }
    assert lines[..|lines|] == lines;
    sequences := sequences + [sequence];
  }

  // ---------------------------------------------------------------------------------
  // Properties.

  /** The names count the headers, and all but the first header closed a sequence. */
  lemma {:induction false} ReadLinesCounts(lines: seq<string>)
    requires Readable(lines)
    ensures var r := ReadLines(lines);
      |r.names| == r.count && |r.sequences| == if r.count == 0 then 0 else r.count - 1
  {
    if lines != [] {
      ReadLinesCounts(lines[..|lines| - 1]);
    }
  }

  /** So the reader returns one sequence per name, and a single sequence when the file
      has no header line. */
  lemma FastaCounts(lines: seq<string>)
    requires Readable(lines)
    ensures var (names, sequences) := FastaOf(lines);
      |sequences| == if names == [] then 1 else |names|
  {
    ReadLinesCounts(lines);
  }

  /** A header line written as '>' and a name without spaces or '>' reads back the name. */
  lemma HeaderName(name: string)
    requires name != [] && ' ' !in name && '>' !in name
    ensures IsHeader(">" + name) && NamedHeader(">" + name) && NameOf(">" + name) == name
  {
    var line := ">" + name;
    assert line[0] == '>' && line[1..] == name;
    assert ProperFields([line], ' ') && Join([line], ' ') == line;
    SplitJoin([line], ' ');
    assert ProperFields([name], '>') && Join([name], '>') == name;
    SplitJoin([name], '>');
  }

  /** Lines that are not headers extend the open sequence by their concatenation. */
  lemma {:induction false} ReadBody(lines: seq<string>, body: seq<string>)
    requires Readable(lines) && forall k :: 0 <= k < |body| ==> !IsHeader(body[k])
    ensures Readable(lines + body)
    ensures var r := ReadLines(lines);
      ReadLines(lines + body) == Reading(r.names, r.sequences, r.sequence + Concat(body), r.count)
    decreases |body|
  {
    var all := lines + body;
    if body == [] {
      assert all == lines;
      assert Concat(body) == [];
    } else {
      var init := body[..|body| - 1];
      ReadBody(lines, init);
      assert all[..|all| - 1] == lines + init;
      assert init + [body[|body| - 1]] == body;
      ConcatAppend(init, [body[|body| - 1]]);
      assert Concat([body[|body| - 1]]) == body[|body| - 1];
      AppendAssoc(ReadLines(lines).sequence, Concat(init), body[|body| - 1]);
    }
  }

  /** A FASTA record: a name and its sequence lines. */
  datatype Record = Record(name: string, body: seq<string>)

  /** A record is written as its header line and its body lines; the name has no space
      or '>' and no body line starts with '>'. */
  predicate Writable(rec: Record)
  {
    rec.name != [] && ' ' !in rec.name && '>' !in rec.name &&
    forall k :: 0 <= k < |rec.body| ==> !IsHeader(rec.body[k])
  }

  /** The lines of a FASTA file holding the records in order. */
  function FastaLines(recs: seq<Record>): seq<string>
  {
    if recs == [] then [] else FastaLines(recs[..|recs| - 1]) + ([">" + recs[|recs| - 1].name] + recs[|recs| - 1].body)
  }

  /** The names of the records. */
  function RecordNames(recs: seq<Record>): (names: seq<string>)
    ensures |names| == |recs| && forall k :: 0 <= k < |recs| ==> names[k] == recs[k].name
  {
    seq(|recs|, k requires 0 <= k < |recs| => recs[k].name)
  }

  /** The sequence of every record: its body lines concatenated. */
  function RecordSequences(recs: seq<Record>): (sequences: seq<string>)
    ensures |sequences| == |recs| && forall k :: 0 <= k < |recs| ==> sequences[k] == Concat(recs[k].body)
  {
    seq(|recs|, k requires 0 <= k < |recs| => Concat(recs[k].body))
  }

  /** The reader after the lines of some records: their names, the sequences of all
      but the last closed, the last one open. */
  lemma {:induction false} ReadRecords(recs: seq<Record>)
    requires recs != [] && forall k :: 0 <= k < |recs| ==> Writable(recs[k])
    ensures Readable(FastaLines(recs))
    ensures ReadLines(FastaLines(recs)) ==
      Reading(RecordNames(recs), RecordSequences(recs[..|recs| - 1]), Concat(recs[|recs| - 1].body), |recs|)
    decreases |recs|
  {
    var init, last := recs[..|recs| - 1], recs[|recs| - 1];
    var before := FastaLines(init);
    var header := ">" + last.name;
    assert Writable(last);
    HeaderName(last.name);
    if init == [] {
      assert before == [];
    } else {
      assert forall k :: 0 <= k < |init| ==> init[k] == recs[k];
      ReadRecords(init);
      ReadLinesCounts(before);
      RecordSequencesSnoc(init);
    }
    var r := ReadLines(before);
    ReadLinesSnoc(before, header);
    ReadBody(before + [header], last.body);
    AppendAssoc(before, [header], last.body);
    RecordNamesSnoc(recs);
  }

  /** One more line in ReadLines. */
  lemma ReadLinesSnoc(lines: seq<string>, line: string)
    requires Readable(lines) && (IsHeader(line) ==> NamedHeader(line))
    ensures Readable(lines + [line]) && ReadLines(lines + [line]) == ReadLine(ReadLines(lines), line)
  {
    assert (lines + [line])[..|lines|] == lines;
  }

  lemma RecordNamesSnoc(recs: seq<Record>)
    requires recs != []
    ensures RecordNames(recs) == RecordNames(recs[..|recs| - 1]) + [recs[|recs| - 1].name]
  {
  }

  lemma RecordSequencesSnoc(recs: seq<Record>)
    requires recs != []
    ensures RecordSequences(recs) == RecordSequences(recs[..|recs| - 1]) + [Concat(recs[|recs| - 1].body)]
  {
  }

  /** Reading the lines of some records gives back their names and sequences. */
  lemma FastaRoundTrip(recs: seq<Record>)
    requires recs != [] && forall k :: 0 <= k < |recs| ==> Writable(recs[k])
    ensures Readable(FastaLines(recs)) && FastaOf(FastaLines(recs)) == (RecordNames(recs), RecordSequences(recs))
  {
    ReadRecords(recs);
    RecordSequencesSnoc(recs);
  }
}
