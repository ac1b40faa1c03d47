/** Splitting text at line breaks. */
module Lines {
  // The pieces between break characters; a trailing break leaves an empty last piece.
  function SplitAt(isBreak: char -> bool, s: string): (pieces: seq<string>)
    ensures pieces != []
  {
    if s == "" then [""] else Extended(isBreak, SplitAt(isBreak, s[..|s| - 1]), s[|s| - 1])
  }

  // One more character: a break opens a new piece, any other extends the last one.
  function Extended(isBreak: char -> bool, pieces: seq<string>, c: char): (r: seq<string>)
    requires pieces != []
    ensures r != []
  {
    if isBreak(c) then pieces + [""] else pieces[..|pieces| - 1] + [pieces[|pieces| - 1] + [c]]
  }

  predicate AtBoundary(isBreak: char -> bool, s: string) {
    s == "" || isBreak(s[|s| - 1])
  }

  // Text that ends with a break and the text after it are split independently.
  lemma {:induction false} SplitConcat(isBreak: char -> bool, a: string, b: string)
    requires AtBoundary(isBreak, a)
    ensures var pieces := SplitAt(isBreak, a);
      pieces[|pieces| - 1] == "" && SplitAt(isBreak, a + b) == pieces[..|pieces| - 1] + SplitAt(isBreak, b)
  {
    var pieces := SplitAt(isBreak, a);
    var whole := pieces[..|pieces| - 1];
    if b == "" {
      assert a + b == a;
      assert pieces == whole + [""];
    } else {
      var n := |b| - 1;
      SplitConcat(isBreak, a, b[..n]);
      assert (a + b)[..|a + b| - 1] == a + b[..n];
      ExtendedConcat(isBreak, whole, SplitAt(isBreak, b[..n]), b[n]);
    }
  }

  lemma ExtendedConcat(isBreak: char -> bool, a: seq<string>, b: seq<string>, c: char)
    requires b != []
    ensures Extended(isBreak, a + b, c) == a + Extended(isBreak, b, c)
  {
  }

  // Text that does not end with a break leaves its last line open: one more character joins that line.
  lemma OpenLine(isBreak: char -> bool, s: string, c: char)
    requires !AtBoundary(isBreak, s) && !isBreak(c)
    ensures var pieces := SplitAt(isBreak, s);
      var last := pieces[|pieces| - 1];
      && last != "" && last[|last| - 1] == s[|s| - 1]
      && SplitAt(isBreak, s + [c]) == pieces[..|pieces| - 1] + [last + [c]]
  {
    assert (s + [c])[..|s|] == s;
  }

  lemma {:induction false} SplitWithoutBreaks(isBreak: char -> bool, s: string)
    requires forall c | c in s :: !isBreak(c)
    ensures SplitAt(isBreak, s) == [s]
  {
    if s != "" {
      SplitWithoutBreaks(isBreak, s[..|s| - 1]);
      assert s == s[..|s| - 1] + [s[|s| - 1]];
    }
  }
}
