/** The two operations of Go's strings package that the formatter uses:
    strings.Repeat and strings.Split with a one-character separator. */
module GoStrings {

  /** strings.Repeat: `n` copies of `s`, one after the other. */
  function Repeat(s: string, n: nat): (r: string)
    ensures |r| == |s| * n
  {
    if n == 0 then "" else s + Repeat(s, n - 1)
  }

  /** Repeating a one-character string gives `n` copies of that character. */
  lemma {:induction false} RepeatChar(c: char, n: nat)
    ensures |Repeat([c], n)| == n
    ensures forall i :: 0 <= i < n ==> Repeat([c], n)[i] == c
  {
    if n > 0 {
      RepeatChar(c, n - 1);
      assert Repeat([c], n) == [c] + Repeat([c], n - 1);
    }
  }

  /** The part of `s` before the first `sep`, or all of `s` when `sep` does
      not occur in it. */
  function TakeUntil(s: string, sep: char): (r: string)
    ensures r <= s && sep !in r
    ensures |r| < |s| ==> s[|r|] == sep
  {
    if s == [] || s[0] == sep then "" else [s[0]] + TakeUntil(s[1..], sep)
  }

  /** strings.Split(s, sep): the pieces of `s` between occurrences of `sep`. */
  function Split(s: string, sep: char): (fields: seq<string>)
    ensures |fields| > 0
    ensures forall i :: 0 <= i < |fields| ==> sep !in fields[i]
    ensures |fields| >= 2 <==> sep in s
    decreases |s|
  {
    var f := TakeUntil(s, sep);
    if |f| == |s| then [s] else [f] + Split(s[|f| + 1..], sep)
  }

  /** strings.Join(fields, sep): the inverse of Split. */
  function Join(fields: seq<string>, sep: char): string
    requires |fields| > 0
  {
    if |fields| == 1 then fields[0] else fields[0] + [sep] + Join(fields[1..], sep)
  }

  /** Splitting loses nothing: joining the pieces gives back the string. */
  lemma {:induction false} JoinSplit(s: string, sep: char)
    ensures Join(Split(s, sep), sep) == s
    decreases |s|
  {
    var f := TakeUntil(s, sep);
    if |f| < |s| {
      var rest := s[|f| + 1..];
      assert s == f + [sep] + rest;
      SplitFirst(f, sep, rest);
      JoinSplit(rest, sep);
      var fields := [f] + Split(rest, sep);
      assert fields[1..] == Split(rest, sep);
      assert Join(fields, sep) == f + [sep] + Join(Split(rest, sep), sep);
    }
  }

  /** Split of two separator-free pieces joined by the separator gives the
      two pieces back. */
  lemma SplitTwo(a: string, sep: char, b: string)
    requires sep !in a && sep !in b
    ensures Split(a + [sep] + b, sep) == [a, b]
  {
    SplitFirst(a, sep, b);
    SplitNone(b, sep);
  }

  lemma SplitNone(b: string, sep: char)
    requires sep !in b
    ensures Split(b, sep) == [b]
  {
    TakeUntilPrefix(b, sep, []);
    assert b + [] == b;
  }

  lemma SplitFirst(a: string, sep: char, b: string)
    requires sep !in a
    ensures Split(a + [sep] + b, sep) == [a] + Split(b, sep)
  {
    var s := a + [sep] + b;
    assert s == a + ([sep] + b);
    TakeUntilPrefix(a, sep, [sep] + b);
    assert s[|a| + 1..] == b;
  }

  lemma {:induction false} TakeUntilPrefix(a: string, sep: char, rest: string)
    requires sep !in a
    requires rest == [] || rest[0] == sep
    ensures TakeUntil(a + rest, sep) == a
  {
    if a != [] {
      assert (a + rest)[1..] == a[1..] + rest;
      TakeUntilPrefix(a[1..], sep, rest);
    }
  }

  /** A string with no `sep` in the last part splits uniquely at its last
      `sep`. */
  lemma SplitAtLast(a: string, b: string, a': string, b': string, sep: char)
    requires a + [sep] + b == a' + [sep] + b'
    requires sep !in b && sep !in b'
    ensures a == a' && b == b'
  {
    var s := a + [sep] + b;
    assert forall j :: |a| < j < |s| ==> s[j] == b[j - |a| - 1];
    assert forall j :: |a'| < j < |s| ==> s[j] == b'[j - |a'| - 1];
    assert s[|a|] == sep && s[|a'|] == sep;
    assert |a| == |a'|;
    assert a == s[..|a|] == a';
    assert b == s[|a| + 1..] == b';
  }
}
