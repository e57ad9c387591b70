/** Lines, suffixes and letter case of strings. */
module Text {

  /** Splitting at a separator, newlines by default; there is always at least one (possibly empty) piece. */
  function Split(s: string, separator: char := '\n'): (lines: seq<string>)
    ensures |lines| > 0
  {
    if s == [] then [""]
    else
      var rest := Split(s[1..], separator);
      if s[0] == separator then [""] + rest else [[s[0]] + rest[0]] + rest[1..]
  }

  function JoinLines(lines: seq<string>): string
    requires |lines| > 0
  {
    if |lines| == 1 then lines[0] else lines[0] + "\n" + JoinLines(lines[1..])
  }

  /** No line contains a newline and joining the lines restores the text. */
  lemma {:induction false} SplitLinesRoundTrip(s: string)
    ensures JoinLines(Split(s)) == s
    ensures forall k :: 0 <= k < |Split(s)| ==> '\n' !in Split(s)[k]
  {
    if s != [] {
      SplitLinesRoundTrip(s[1..]);
      var rest := Split(s[1..]);
      if s[0] == '\n' {
        assert Split(s)[1..] == rest;
      } else {
        assert Split(s)[1..] == rest[1..];
      }
    }
  }

  lemma {:induction false} SplitOneLine(s: string, separator: char := '\n')
    requires separator !in s
    ensures Split(s, separator) == [s]
  {
    if s != [] {
      SplitOneLine(s[1..], separator);
      assert [s[0]] + s[1..] == s;
    }
  }

  /** The lines of x followed by those of y, where the last line of x continues in the first of y. */
  function Merge(x: seq<string>, y: seq<string>): seq<string>
    requires |x| > 0 && |y| > 0
  {
    x[..|x| - 1] + [x[|x| - 1] + y[0]] + y[1..]
  }

  lemma MergeAfterChar(c: char, x: seq<string>, y: seq<string>)
    requires |x| > 0 && |y| > 0
    ensures Merge([[c] + x[0]] + x[1..], y) == [[c] + Merge(x, y)[0]] + Merge(x, y)[1..]
  {
    if |x| == 1 {
      assert [c] + (x[0] + y[0]) == [c] + x[0] + y[0];
    } else {
      assert ([[c] + x[0]] + x[1..])[..|x| - 1] == [[c] + x[0]] + x[1..|x| - 1];
    }
  }

  lemma MergeAfterNewline(x: seq<string>, y: seq<string>)
    requires |x| > 0 && |y| > 0
    ensures Merge([""] + x, y) == [""] + Merge(x, y)
  {
    assert ([""] + x)[..|x|] == [""] + x[..|x| - 1];
  }

  /** The last line of a text and the first line of what follows it are one line. */
  lemma {:induction false} SplitAppend(a: string, b: string)
    ensures Split(a + b) == Merge(Split(a), Split(b))
  {
    if a == [] {
      assert a + b == b;
      var y := Split(b);
      assert "" + y[0] == y[0];
      assert Merge([""], y) == y;
    } else {
      SplitAppend(a[1..], b);
      assert (a + b)[1..] == a[1..] + b;
      var x, y := Split(a[1..]), Split(b);
      var w := Merge(x, y);
      if a[0] == '\n' {
        MergeAfterNewline(x, y);
        assert Split(a + b) == [""] + w;
      } else {
        MergeAfterChar(a[0], x, y);
        assert Split(a + b) == [[a[0]] + w[0]] + w[1..];
      }
    }
  }

  /** The last n characters. */
  function Suffix(s: string, n: nat): (t: string)
    ensures |t| == if |s| <= n then |s| else n
    ensures |s| <= n ==> t == s
  {
    if |s| <= n then s else s[|s| - n..]
  }

  predicate IsSuffix(t: string, s: string) {
    |t| <= |s| && s[|s| - |t|..] == t
  }

  /** Cutting before appending does not change the last n characters. */
  lemma SuffixAppend(s: string, b: string, n: nat)
    ensures Suffix(Suffix(s, n) + b, n) == Suffix(s + b, n)
  {
  }

  lemma SuffixBefore(s: string, b: string, n: nat)
    ensures IsSuffix(Suffix(s, n) + b, s + b)
  {
  }

  function LowerChar(c: char): char {
    if 'A' <= c <= 'Z' then c - 'A' + 'a' else c
  }

  function Lower(s: string): (t: string)
    ensures |t| == |s|
  {
    seq(|s|, k requires 0 <= k < |s| => LowerChar(s[k]))
  }
}
