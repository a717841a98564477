/**
 * The text `WriteSimulation` puts in the simulations file: one line per
 * result, in result order; each value formatted, then a single space; then
 * the end of line. Formatting a double is the caller-supplied `format`.
 */
module Output {
  import opened SampleTable

  /** Every value of `simu` followed by one space. */
  function Fields(simu: seq<real>, format: real -> seq<char>): seq<char>
  {
    if simu == [] then [] else format(simu[0]) + [' '] + Fields(simu[1..], format)
  }

  /** The line written for one result. */
  function Line(simu: seq<real>, format: real -> seq<char>): seq<char>
  {
    Fields(simu, format) + ['\n']
  }

  /** The lines of all results, in order. */
  function Serialise(simus: seq<seq<real>>, format: real -> seq<char>): seq<char>
  {
    if simus == [] then [] else Line(simus[0], format) + Serialise(simus[1..], format)
  }

  lemma {:induction false} FieldsAppend(simu: seq<real>, v: real, format: real -> seq<char>)
    ensures Fields(simu + [v], format) == Fields(simu, format) + format(v) + [' ']
  {
    if simu != [] {
      assert (simu + [v])[1..] == simu[1..] + [v];
      FieldsAppend(simu[1..], v, format);
    } else {
      assert Fields([v][1..], format) == [];
    }
  }

  lemma {:induction false} SerialiseAppend(simus: seq<seq<real>>, simu: seq<real>, format: real -> seq<char>)
    ensures Serialise(simus + [simu], format) == Serialise(simus, format) + Line(simu, format)
  {
    if simus != [] {
      assert (simus + [simu])[1..] == simus[1..] + [simu];
      SerialiseAppend(simus[1..], simu, format);
    } else {
      assert Serialise([simu][1..], format) == [];
    }
  }

  /** An empty result is written as a bare end of line. */
  lemma {:induction false} EmptyResultLine(format: real -> seq<char>)
    ensures Line([], format) == ['\n']
  {
  }

  lemma {:induction false} FieldsNoNewline(simu: seq<real>, format: real -> seq<char>)
    requires forall v :: '\n' !in format(v)
    ensures '\n' !in Fields(simu, format)
  {
    if simu != [] {
      FieldsNoNewline(simu[1..], format);
    }
  }

  /**
   * When no formatted value contains '\n', the text has exactly one line per
   * result, in result order, line `k` holding the fields of result `k`, and
   * nothing after the last end of line.
   */
  lemma {:induction false} SerialisedLines(simus: seq<seq<real>>, format: real -> seq<char>)
    requires forall v :: '\n' !in format(v)
    ensures Split(Serialise(simus, format)) ==
      seq(|simus|, k requires 0 <= k < |simus| => Fields(simus[k], format)) + [[]]
  {
    if simus != [] {
      SerialisedLines(simus[1..], format);
      FieldsNoNewline(simus[0], format);
      SplitLine(Fields(simus[0], format), Serialise(simus[1..], format));
      assert Serialise(simus, format) == Fields(simus[0], format) + ['\n'] + Serialise(simus[1..], format);
    }
  }

  /**
   * When every formatted value is a single word, the words of a written line
   * are the formatted values, in order: a line reads back field by field.
   */
  lemma {:induction false} FieldsTokens(simu: seq<real>, format: real -> seq<char>)
    requires forall v :: IsWord(format(v))
    ensures Tokens(Fields(simu, format)) == seq(|simu|, i requires 0 <= i < |simu| => format(simu[i]))
  {
    if simu != [] {
      FieldsTokens(simu[1..], format);
      TokensWord(format(simu[0]), Fields(simu[1..], format));
    }
  }
}
