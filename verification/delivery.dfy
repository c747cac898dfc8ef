/**
 * Delivery of one order: the command line handed to the shell and the
 * outcome the execution sink reports back.
 */
module Delivery {

  /** What running the command reports: success, or a failure with its description. */
  datatype Outcome = Delivered | Failed(reason: string)

  /** Words joined by single spaces, as `" ".join(words)`: it begins with the first word. */
  function Join(words: seq<string>): (r: string)
    ensures words != [] ==> |r| >= |words[0]| && r[..|words[0]|] == words[0]
  {
    if words == [] then ""
    else if |words| == 1 then words[0]
    else words[0] + " " + Join(words[1..])
  }

  /** The pieces of `s` between single spaces, as `s.split(" ")`. */
  function Split(s: string): (r: seq<string>)
    ensures |r| > 0
  {
    if s == [] then [[]]
    else
      var rest := Split(s[1..]);
      if s[0] == ' ' then [[]] + rest else [[s[0]] + rest[0]] + rest[1..]
  }

  /**
   * The shell command for an order: the fixed prefix followed by the order's
   * arguments, so it begins with the program name.
   */
  function CommandLine(deliverCmd: seq<string>, arguments: seq<string>): (cmd: string)
    ensures deliverCmd != [] ==> |cmd| >= |deliverCmd[0]| && cmd[..|deliverCmd[0]|] == deliverCmd[0]
  {
    Join(deliverCmd + arguments)
  }

  /** The error text recorded for a failed delivery (`str(DeliveryException(e))`). */
  function ErrorText(reason: string): (t: string)
    ensures |t| > |reason| && t[|t| - |reason|..] == reason
  {
    "DeliveryException: " + reason
  }

  predicate SpaceFree(w: string)
  {
    ' ' !in w
  }

  lemma {:induction false} SplitWord(w: string)
    requires SpaceFree(w)
    ensures Split(w) == [w]
  {
    if w != [] {
      SplitWord(w[1..]);
      assert [w[0]] + w[1..] == w;
    }
  }

  lemma {:induction false} SplitAfterWord(w: string, t: string)
    requires SpaceFree(w)
    ensures Split(w + " " + t) == [w] + Split(t)
  {
    if w == [] {
      assert w + " " + t == [' '] + t;
      assert (w + " " + t)[1..] == t;
    } else {
      var s := w + " " + t;
      assert s[1..] == w[1..] + " " + t;
      SplitAfterWord(w[1..], t);
      assert [w[0]] + w[1..] == w;
    }
  }

  /** Splitting a joined non-empty list of space-free words gives the words back. */
  lemma {:induction false} SplitJoin(words: seq<string>)
    requires words != []
    requires forall i :: 0 <= i < |words| ==> SpaceFree(words[i])
    ensures Split(Join(words)) == words
  {
    if |words| == 1 {
      SplitWord(words[0]);
    } else {
      SplitJoin(words[1..]);
      SplitAfterWord(words[0], Join(words[1..]));
      assert [words[0]] + words[1..] == words;
    }
  }

  /** Joining two non-empty lists is joining each and putting one space between. */
  lemma {:induction false} JoinAppend(a: seq<string>, b: seq<string>)
    requires a != [] && b != []
    ensures Join(a + b) == Join(a) + " " + Join(b)
  {
    assert (a + b)[0] == a[0];
    if |a| > 1 {
      assert (a + b)[1..] == a[1..] + b;
      JoinAppend(a[1..], b);
      assert Join(a) == a[0] + " " + Join(a[1..]);
    } else {
      assert (a + b)[1..] == b;
    }
  }

  /**
   * The command line is the prefix's words and the arguments' words with one
   * space between consecutive words: splitting it gives them back.
   */
  lemma CommandLineWords(deliverCmd: seq<string>, arguments: seq<string>)
    requires deliverCmd + arguments != []
    requires forall i :: 0 <= i < |deliverCmd| ==> SpaceFree(deliverCmd[i])
    requires forall i :: 0 <= i < |arguments| ==> SpaceFree(arguments[i])
    ensures Split(CommandLine(deliverCmd, arguments)) == deliverCmd + arguments
  {
    var words := deliverCmd + arguments;
    forall i | 0 <= i < |words| ensures SpaceFree(words[i]) {
      if i >= |deliverCmd| { assert words[i] == arguments[i - |deliverCmd|]; }
    }
    SplitJoin(words);
  }

  /** With a non-empty prefix and arguments, the command line is the joined prefix, a space, and the joined arguments. */
  lemma CommandLineParts(deliverCmd: seq<string>, arguments: seq<string>)
    requires deliverCmd != [] && arguments != []
    ensures CommandLine(deliverCmd, arguments) == Join(deliverCmd) + " " + Join(arguments)
  {
    JoinAppend(deliverCmd, arguments);
  }
}
