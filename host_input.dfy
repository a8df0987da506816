/**
 * parse_input, the same code in miPod/src/main.cpp and mb/miPod/src/main.cpp:
 * a std::stringstream over the command line is read with `>>` into at most
 * three strings for as long as the stream stays good, and only then are the
 * three copied to cmd, arg1 and arg2.
 */
module HostInput {
  /** The characters std::isspace accepts in the "C" locale: space, \t, \n, \v, \f and \r. */
  predicate IsSpace(c: char) {
    c == ' ' || '\t' <= c <= '\r'
  }

  /** The first position from pos on that holds no white space, or the end. */
  function SkipSpace(s: string, pos: nat): (b: nat)
    requires pos <= |s|
    ensures pos <= b <= |s|
    ensures forall k :: pos <= k < b ==> IsSpace(s[k])
    ensures b < |s| ==> !IsSpace(s[b])
    decreases |s| - pos
  {
    if pos == |s| || !IsSpace(s[pos]) then pos else SkipSpace(s, pos + 1)
  }

  /** The first position from pos on that holds white space, or the end. */
  function WordEnd(s: string, pos: nat): (e: nat)
    requires pos <= |s|
    ensures pos <= e <= |s|
    ensures forall k :: pos <= k < e ==> !IsSpace(s[k])
    ensures e < |s| ==> IsSpace(s[e])
    decreases |s| - pos
  {
    if pos == |s| || IsSpace(s[pos]) then pos else WordEnd(s, pos + 1)
  }

  /** The white-space separated words of s from pos on, in order. */
  function Words(s: string, pos: nat): seq<string>
    requires pos <= |s|
    decreases |s| - pos
  {
    var b := SkipSpace(s, pos);
    if b == |s| then [] else [s[b..WordEnd(s, b)]] + Words(s, WordEnd(s, b))
  }

  /** A word is never empty and holds no white space. */
  lemma {:induction false} WordsAreWords(s: string, pos: nat)
    requires pos <= |s|
    ensures forall w :: w in Words(s, pos) ==> w != [] && forall k :: 0 <= k < |w| ==> !IsSpace(w[k])
    decreases |s| - pos
  {
    var b := SkipSpace(s, pos);
    if b < |s| {
      WordsAreWords(s, WordEnd(s, b));
    }
  }

  /** No word is left exactly when only white space is left. */
  lemma NoWordsLeft(s: string, pos: nat)
    requires pos <= |s|
    ensures Words(s, pos) == [] <==> forall k :: pos <= k < |s| ==> IsSpace(s[k])
  {
    var b := SkipSpace(s, pos);
    if b < |s| {
      assert !IsSpace(s[b]);
    }
  }

  /**
   * One `ssin >> str`: the sentry skips white space, then characters are
   * taken up to the next white space, which stays unread. The stream stays
   * good only if it stopped on that white space; reaching the end sets eof,
   * and finding no word at all sets fail as well. When no word is found the
   * string is left as it was, which for the fresh strings of parse_input is
   * the empty one returned here.
   */
  function Extract(s: string, pos: nat): (r: (string, nat, bool))
    requires pos <= |s|
    ensures pos <= r.1 <= |s|
  {
    var b := SkipSpace(s, pos);
    var e := WordEnd(s, b);
    (s[b..e], e, e < |s|)
  }

  /**
   * The loop asks for a fourth read, and parse_input gives up, when there are
   * more than three words, or exactly three and white space after the third.
   */
  predicate TooManyParameters(s: string) {
    |Words(s, 0)| > 3 || (|Words(s, 0)| == 3 && IsSpace(s[|s| - 1]))
  }

  /** The words, with the empty string for each missing one. */
  function Padded(w: seq<string>): (r: seq<string>)
    requires |w| <= 3
    ensures |r| == 3 && r[..|w|] == w
    ensures forall k :: |w| <= k < 3 ==> r[k] == ""
  {
    w + seq(3 - |w|, _ => "")
  }

  /** Storing one more word in the first empty place. */
  lemma PaddedSnoc(w: seq<string>, x: string)
    requires |w| < 3
    ensures Padded(w)[|w| := x] == Padded(w + [x])
  {
  }

  /** What one extraction adds to the words read so far and what it leaves. */
  lemma ExtractStep(s: string, pos: nat)
    requires pos <= |s|
    ensures SkipSpace(s, pos) < |s| ==> Words(s, pos) == [Extract(s, pos).0] + Words(s, Extract(s, pos).1)
    ensures SkipSpace(s, pos) == |s| ==> Extract(s, pos) == ("", |s|, false) && Words(s, pos) == []
    ensures Extract(s, pos).2 ==> Extract(s, pos).1 < |s|
    ensures !Extract(s, pos).2 ==> Extract(s, pos).1 == |s| && Words(s, |s|) == []
    ensures SkipSpace(s, pos) < |s| && !Extract(s, pos).2 ==> !IsSpace(s[|s| - 1])
  {
    var b := SkipSpace(s, pos);
    if b == |s| {
      assert s[b..WordEnd(s, b)] == [];
    } else if !Extract(s, pos).2 {
      assert WordEnd(s, b) > b;
    }
  }

  /** One read while the stream is good: the words read so far grow by the one found, if any. */
  lemma ReadKeeps(s: string, pos: nat, read: seq<string>) returns (next: seq<string>)
    requires |read| < 3 && pos <= |s| && (0 < |read| ==> pos < |s|)
    requires Words(s, 0) == read + Words(s, pos)
    ensures |read| <= |next| <= |read| + 1
    ensures Padded(read)[|read| := Extract(s, pos).0] == Padded(next)
    ensures Words(s, 0) == next + Words(s, Extract(s, pos).1)
    ensures Extract(s, pos).2 ==> |next| == |read| + 1 && Extract(s, pos).1 < |s|
    ensures !Extract(s, pos).2 ==> Words(s, Extract(s, pos).1) == [] && (|next| == 3 ==> 0 < |s| && !IsSpace(s[|s| - 1]))
  {
    ExtractStep(s, pos);
    if SkipSpace(s, pos) < |s| {
      PaddedSnoc(read, Extract(s, pos).0);
      next := read + [Extract(s, pos).0];
    } else {
      next := read;
    }
  }

  /** Three words read and the stream still good: white space or another word follows, so the line has too many. */
  lemma TooManyAt(s: string, pos: nat, w: seq<string>)
    requires pos < |s| && |w| == 3
    requires Words(s, 0) == w + Words(s, pos)
    ensures TooManyParameters(s)
  {
    NoWordsLeft(s, pos);
  }

  /** Nothing left to read: the words read are all of them, and a third one ended the line. */
  lemma AllReadAt(s: string, pos: nat, w: seq<string>)
    requires pos <= |s| && |w| <= 3
    requires Words(s, 0) == w + Words(s, pos) && Words(s, pos) == []
    requires |w| == 3 ==> 0 < |s| && !IsSpace(s[|s| - 1])
    ensures !TooManyParameters(s) && Words(s, 0) == w
  {
  }

  /**
   * parse_input(input, cmd, arg1, arg2), miPod/src/main.cpp lines 47-70:
   * cmd0, arg10 and arg20 are what the reference arguments held before the
   * call. On a line of at most three words they become the words in order,
   * "" for the missing ones; when the loop would read a fourth time the
   * function reports the error and returns with all three unchanged.
   */
  method ParseInput(input: string, cmd0: string, arg10: string, arg20: string)
    returns (cmd: string, arg1: string, arg2: string)
    ensures TooManyParameters(input) ==> cmd == cmd0 && arg1 == arg10 && arg2 == arg20
    ensures !TooManyParameters(input) ==> [cmd, arg1, arg2] == Padded(Words(input, 0))
  {
    var inputs: seq<string> := ["", "", ""];
    var pos: nat := 0;
    var good := true;
    var i := 0;
    ghost var read: seq<string> := [];  // the words among inputs[..i]: all but a last failed read
    while good
      invariant |read| <= i <= 3 && pos <= |input|
      invariant inputs == Padded(read)
      invariant Words(input, 0) == read + Words(input, pos)
      invariant good ==> |read| == i && (0 < i ==> pos < |input|)
      invariant !good ==> Words(input, pos) == [] && (|read| == 3 ==> 0 < |input| && !IsSpace(input[|input| - 1]))
      decreases 3 - i
    {
      if i < 3 {
        var r := Extract(input, pos);
        read := ReadKeeps(input, pos, read);
        inputs := inputs[i := r.0];
        i := i + 1;
        pos, good := r.1, r.2;
      } else {
        TooManyAt(input, pos, read);
        return cmd0, arg10, arg20;
      }
    }
    AllReadAt(input, pos, read);
    cmd, arg1, arg2 := inputs[0], inputs[1], inputs[2];
  }
}
