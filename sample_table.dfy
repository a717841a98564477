/**
 * The biophysical-variable sample table read by `parse_bv_sample_file`:
 * a header line, then one record per further line, each record filled
 * positionally with |IVNames| values in enum order.
 *
 * The file is modelled as its text. A line is what `std::getline` returns,
 * so the lines of a text are its pieces between '\n' characters (`Split`);
 * the values of a line are what successive `>>` extractions from a
 * `std::stringstream` yield, so they come from its whitespace-separated
 * words (`Tokens`). Converting a word into a double is the caller-supplied
 * function `parse`; a field for which the line has no word left keeps the
 * indeterminate value `unset` (the uninitialised `double bvValue`).
 */
module SampleTable {

  // ---------------------------------------------------------------------
  // Lines

  /** Number of '\n' characters in `s`. */
  function NewlineCount(s: seq<char>): (n: nat)
    ensures n <= |s|
  {
    if s == [] then 0 else (if s[0] == '\n' then 1 else 0) + NewlineCount(s[1..])
  }

  /** The pieces of `s` between '\n' characters (a text without '\n' is one piece). */
  function Split(s: seq<char>): (r: seq<seq<char>>)
    ensures |r| == NewlineCount(s) + 1
    ensures forall k :: 0 <= k < |r| ==> '\n' !in r[k]
  {
    if s == [] then [[]]
    else if s[0] == '\n' then [[]] + Split(s[1..])
    else
      var t := Split(s[1..]);
      [[s[0]] + t[0]] + t[1..]
  }

  /** The pieces joined back together with '\n' between consecutive pieces. */
  function Join(lines: seq<seq<char>>): seq<char>
  {
    if |lines| == 0 then []
    else if |lines| == 1 then lines[0]
    else lines[0] + ['\n'] + Join(lines[1..])
  }

  lemma {:induction false} JoinCons(c: char, lines: seq<seq<char>>)
    requires |lines| >= 1
    ensures Join([[c] + lines[0]] + lines[1..]) == [c] + Join(lines)
  {
    var l := [[c] + lines[0]] + lines[1..];
    assert |l| == |lines| && l[0] == [c] + lines[0];
    if |lines| == 1 {
      assert Join(l) == l[0];
    } else {
      assert l[1..] == lines[1..];
      var rest := Join(lines[1..]);
      assert Join(l) == l[0] + ['\n'] + rest;
      assert Join(lines) == lines[0] + ['\n'] + rest;
      assert ([c] + lines[0]) + ['\n'] + rest == [c] + (lines[0] + ['\n'] + rest);
    }
  }

  /** Joining the pieces of a text gives the text back. */
  lemma {:induction false} JoinSplit(s: seq<char>)
    ensures Join(Split(s)) == s
  {
    if s == [] {
    } else if s[0] == '\n' {
      JoinSplit(s[1..]);
      var t := Split(s[1..]);
      assert ([[]] + t)[1..] == t;
    } else {
      JoinSplit(s[1..]);
      JoinCons(s[0], Split(s[1..]));
    }
  }

  /** A '\n'-free prefix `w` only lengthens the first piece. */
  lemma {:induction false} SplitPrefix(w: seq<char>, tail: seq<char>)
    requires '\n' !in w
    ensures Split(w + tail) == [w + Split(tail)[0]] + Split(tail)[1..]
  {
    var st := Split(tail);
    if w != [] {
      var s := w + tail;
      assert s[0] == w[0] && s[0] != '\n';
      assert s[1..] == w[1..] + tail;
      SplitPrefix(w[1..], tail);
      var t := Split(s[1..]);
      assert t == [w[1..] + st[0]] + st[1..];
      assert Split(s) == [[s[0]] + t[0]] + t[1..];
      assert [w[0]] + (w[1..] + st[0]) == w + st[0];
    } else {
      assert w + tail == tail;
      assert [] + st[0] == st[0];
      assert st == [st[0]] + st[1..];
    }
  }

  /** A line followed by '\n' is split off as the first piece. */
  lemma {:induction false} SplitLine(w: seq<char>, rest: seq<char>)
    requires '\n' !in w
    ensures Split(w + ['\n'] + rest) == [w] + Split(rest)
  {
    SplitPrefix(w, ['\n'] + rest);
    assert w + ['\n'] + rest == w + (['\n'] + rest);
    assert (['\n'] + rest)[1..] == rest;
    assert Split(['\n'] + rest) == [[]] + Split(rest);
    assert w + [] == w;
  }

  /** Splitting '\n'-free pieces joined together gives the pieces back. */
  lemma {:induction false} SplitJoin(lines: seq<seq<char>>)
    requires |lines| >= 1
    requires forall k :: 0 <= k < |lines| ==> '\n' !in lines[k]
    ensures Split(Join(lines)) == lines
  {
    if |lines| == 1 {
      SplitPrefix(lines[0], []);
      assert lines[0] + [] == lines[0];
    } else {
      SplitJoin(lines[1..]);
      SplitLine(lines[0], Join(lines[1..]));
      assert lines == [lines[0]] + lines[1..];
    }
  }

  // ---------------------------------------------------------------------
  // Words of a line

  /** The characters `>>` skips between values (the C locale's isspace). */
  predicate IsSpace(c: char)
  {
    c == ' ' || c == '\t' || c == '\n' || c == '\r' || c as int == 11 || c as int == 12
  }

  /** A non-empty run of non-space characters. */
  predicate IsWord(w: seq<char>)
  {
    w != [] && forall i :: 0 <= i < |w| ==> !IsSpace(w[i])
  }

  /** Length of the run of non-space characters that starts `s`. */
  function WordLength(s: seq<char>): (n: nat)
    ensures n <= |s|
    ensures forall i :: 0 <= i < n ==> !IsSpace(s[i])
    ensures n < |s| ==> IsSpace(s[n])
  {
    if s == [] || IsSpace(s[0]) then 0 else 1 + WordLength(s[1..])
  }

  /** The whitespace-separated words of `s`, in order. */
  function Tokens(s: seq<char>): (r: seq<seq<char>>)
    ensures forall k :: 0 <= k < |r| ==> IsWord(r[k])
    decreases |s|
  {
    if s == [] then []
    else if IsSpace(s[0]) then Tokens(s[1..])
    else
      var n := WordLength(s);
      [s[..n]] + Tokens(s[n..])
  }

  /** A word followed by a space is the first word of the text. */
  lemma {:induction false} TokensWord(w: seq<char>, rest: seq<char>)
    requires IsWord(w)
    ensures Tokens(w + [' '] + rest) == [w] + Tokens(rest)
  {
    var s := w + [' '] + rest;
    assert s[|w|] == ' ';
    assert forall i :: 0 <= i < |w| ==> s[i] == w[i];
    WordLengthOf(s, |w|);
    assert s[..|w|] == w;
    assert s[|w|..] == [' '] + rest;
    assert ([' '] + rest)[1..] == rest;
  }

  lemma {:induction false} WordLengthOf(s: seq<char>, n: nat)
    requires n < |s| && IsSpace(s[n])
    requires forall i :: 0 <= i < n ==> !IsSpace(s[i])
    ensures WordLength(s) == n
  {
    if n > 0 {
      WordLengthOf(s[1..], n - 1);
    }
  }

  // ---------------------------------------------------------------------
  // Records

  /** Field `i` of a record read from a line with words `words`. */
  function Field(words: seq<seq<char>>, i: nat, parse: seq<char> -> real, unset: real): real
  {
    if i < |words| then parse(words[i]) else unset
  }

  /** The record one sample line yields: `nVars` fields in enum order. */
  function Record(line: seq<char>, nVars: nat, parse: seq<char> -> real, unset: real): (r: seq<real>)
    ensures |r| == nVars
  {
    seq(nVars, i requires 0 <= i < nVars => Field(Tokens(line), i, parse, unset))
  }

  /** The records of a sample file: none when it could not be opened, else one per line after the header. */
  function Samples(text: seq<char>, openOk: bool, nVars: nat, parse: seq<char> -> real, unset: real): (r: seq<seq<real>>)
  {
    if !openOk then []
    else
      var lines := Split(text)[1..];
      seq(|lines|, k requires 0 <= k < |lines| => Record(lines[k], nVars, parse, unset))
  }

  /**
   * One record per '\n' of the file (a trailing '\n' gives a last record
   * read from an empty line), each with exactly `nVars` fields, the fields
   * being the line's words in order, and `unset` past its last word.
   */
  lemma {:induction false} SamplesShape(text: seq<char>, nVars: nat, parse: seq<char> -> real, unset: real)
    ensures |Samples(text, true, nVars, parse, unset)| == NewlineCount(text)
    ensures forall k :: 0 <= k < NewlineCount(text) ==>
      var rec := Samples(text, true, nVars, parse, unset)[k];
      var words := Tokens(Split(text)[k + 1]);
      |rec| == nVars &&
      (forall i :: 0 <= i < nVars && i < |words| ==> rec[i] == parse(words[i])) &&
      (forall i :: |words| <= i < nVars ==> rec[i] == unset)
  {
  }

  /** The header line is read and dropped: its content never reaches a record. */
  lemma {:induction false} HeaderIgnored(header: seq<char>, body: seq<char>, nVars: nat, parse: seq<char> -> real, unset: real)
    requires '\n' !in header
    ensures Samples(header + ['\n'] + body, true, nVars, parse, unset) == Samples(['\n'] + body, true, nVars, parse, unset)
  {
    SplitLine(header, body);
    SplitLine([], body);
    assert [] + ['\n'] + body == ['\n'] + body;
  }

  // ---------------------------------------------------------------------
  // The input stream

  /** An input file stream: its text, the read position and the eof/fail state bits. */
  class SampleFile {
    const text: seq<char>
    var pos: nat
    var eof: bool
    var fail: bool
    var isOpen: bool

    ghost predicate Valid()
      reads this
    {
      pos <= |text|
    }

    /** `good()`: neither eofbit nor failbit is set. */
    predicate Good()
      reads this
    {
      !eof && !fail
    }

    /** What is still to be read, split into lines. */
    ghost function Remaining(): seq<seq<char>>
      reads this
      requires Valid()
    {
      Split(text[pos..])
    }

    /** Opening `contents`; a failed open leaves the failbit set. */
    constructor Open(contents: seq<char>, openOk: bool)
      ensures Valid() && text == contents && pos == 0
      ensures eof == false && fail == !openOk && isOpen == openOk
    {
      text := contents;
      pos := 0;
      eof := false;
      fail := !openOk;
      isOpen := openOk;
    }

    /**
     * `std::getline`: on a good stream, extracts up to and including the
     * next '\n' and returns what preceded it; running into the end sets
     * eofbit, and extracting nothing at all also sets failbit. On a stream
     * that is not good it extracts nothing and sets failbit.
     */
    method GetLine() returns (line: seq<char>)
      requires Valid()
      modifies this
      ensures Valid() && isOpen == old(isOpen) && pos >= old(pos)
      ensures old(Good()) && Good() ==> pos > old(pos)
      ensures !old(Good()) ==> !Good() && line == [] && pos == old(pos)
      ensures old(Good()) ==>
        line == old(Remaining())[0] &&
        (Good() <==> |old(Remaining())| > 1) &&
        (Good() ==> Remaining() == old(Remaining())[1..])
    {
      if !Good() {
        fail := true;
        return [];
      }
      var rest := text[pos..];
      var n := LineLength(rest);
      line := rest[..n];
      SplitAtLineEnd(rest);
      if n < |rest| {
        pos := pos + n + 1;
        assert text[pos..] == rest[n + 1..];
      } else {
        eof := true;
        if n == 0 {
          fail := true;
        }
        pos := |text|;
      }
    }

    method Close()
      modifies this
      ensures !isOpen && pos == old(pos) && eof == old(eof) && fail == old(fail)
    {
      isOpen := false;
    }
  }

  /** Length of the text before the first '\n' of `s` (all of `s` when it has none). */
  function LineLength(s: seq<char>): (n: nat)
    ensures n <= |s|
    ensures '\n' !in s[..n]
    ensures n < |s| ==> s[n] == '\n'
  {
    if s == [] || s[0] == '\n' then 0
    else
      var m := LineLength(s[1..]);
      assert s[..m + 1] == [s[0]] + s[1..][..m];
      m + 1
  }

  /** The first line of `s` is what precedes its first '\n'; the other lines follow that '\n'. */
  lemma {:induction false} SplitAtLineEnd(s: seq<char>)
    ensures Split(s)[0] == s[..LineLength(s)]
    ensures LineLength(s) < |s| ==> Split(s)[1..] == Split(s[LineLength(s) + 1..])
    ensures LineLength(s) == |s| <==> |Split(s)| == 1
  {
    if s != [] && s[0] != '\n' {
      var tail := s[1..];
      SplitAtLineEnd(tail);
      var m := LineLength(tail);
      assert LineLength(s) == m + 1;
      assert s[..m + 1] == [s[0]] + tail[..m];
      assert m < |tail| ==> s[m + 2..] == tail[m + 1..];
    }
  }

  /**
   * The inner loop of `parse_bv_sample_file`: `nVars` extractions from a
   * string stream over `line`, each taking the next word, or leaving the
   * field `unset` once the words are used up.
   */
  method ReadRecord(line: seq<char>, nVars: nat, parse: seq<char> -> real, unset: real) returns (prosailBV: seq<real>)
    ensures |prosailBV| == nVars
    ensures forall i :: 0 <= i < nVars && i < |Tokens(line)| ==> prosailBV[i] == parse(Tokens(line)[i])
    ensures forall i :: |Tokens(line)| <= i < nVars ==> prosailBV[i] == unset
  {
    var words := Tokens(line);
    var ss := words;
    prosailBV := [];
    for varName := 0 to nVars
      invariant |prosailBV| == varName
      invariant ss == words[if varName < |words| then varName else |words|..]
      invariant forall i :: 0 <= i < varName ==> prosailBV[i] == Field(words, i, parse, unset)
    {
      var bvValue: real;
      if ss != [] {
        bvValue := parse(ss[0]);
        ss := ss[1..];
      } else {
        bvValue := unset;
      }
      prosailBV := prosailBV + [bvValue];
    }
  }

  /**
   * `parse_bv_sample_file`: reads and drops the header line, then, while the
   * stream is good, reads a line and pushes the record made from its first
   * `nVars` words; closes the stream.
   */
  method ParseBvSampleFile(sampleFile: SampleFile, nVars: nat, parse: seq<char> -> real, unset: real)
    returns (bvVec: seq<seq<real>>)
    requires sampleFile.Valid() && sampleFile.pos == 0 && !sampleFile.eof
    requires sampleFile.fail == !sampleFile.isOpen
    modifies sampleFile
    ensures bvVec == Samples(sampleFile.text, old(sampleFile.isOpen), nVars, parse, unset)
    ensures !sampleFile.isOpen
  {
    ghost var openOk := sampleFile.isOpen;
    ghost var lines := Split(sampleFile.text);
    ghost var all := Samples(sampleFile.text, true, nVars, parse, unset);
    assert |all| + 1 == |lines|;
    var header := sampleFile.GetLine();
    bvVec := [];
    while sampleFile.Good()
      invariant sampleFile.Valid() && sampleFile.isOpen == openOk
      invariant |bvVec| <= |all| && bvVec == all[..|bvVec|]
      invariant !openOk ==> bvVec == [] && !sampleFile.Good()
      invariant sampleFile.Good() ==> |bvVec| < |all| && sampleFile.Remaining() == lines[|bvVec| + 1..]
      invariant openOk && !sampleFile.Good() ==> |bvVec| == |all|
      decreases |sampleFile.text| - sampleFile.pos + (if sampleFile.Good() then 1 else 0)
    {
      var line := sampleFile.GetLine();
      assert line == lines[|bvVec| + 1];
      var prosailBV := ReadRecord(line, nVars, parse, unset);
      assert prosailBV == all[|bvVec|];
      bvVec := bvVec + [prosailBV];
    }
    sampleFile.Close();
  }
}
