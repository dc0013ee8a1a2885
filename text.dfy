/** Splitting text at the first occurrence of a separator, used to read rendered lines back. */
module Text {
  import opened Wrappers

  /** The text before the first `sep` and the text after it, or None when `sep` does not occur. */
  function SplitAt(s: string, sep: char): (r: Option<(string, string)>)
    ensures r.None? <==> sep !in s
    ensures r.Some? ==> sep !in r.value.0 && s == r.value.0 + [sep] + r.value.1
  {
    if sep !in s then None
    else if s[0] == sep then Some(([], s[1..]))
    else
      var rest := SplitAt(s[1..], sep).value;
      Some(([s[0]] + rest.0, rest.1))
  }

  /** Joining two pieces with a separator that the first piece lacks is undone by SplitAt. */
  lemma SplitAtJoin(a: string, sep: char, b: string)
    requires sep !in a
    ensures SplitAt(a + [sep] + b, sep) == Some((a, b))
  {
    var s := a + [sep] + b;
    var x, y := SplitAt(s, sep).value.0, SplitAt(s, sep).value.1;
    // Each side's first separator sits at its own prefix's length, and neither prefix holds one.
    assert s[|x|] == sep && s[|a|] == sep;
    assert forall i :: 0 <= i < |a| ==> s[i] == a[i];
    assert forall i :: 0 <= i < |x| ==> s[i] == x[i];
    assert x == s[..|a|] == a;
    assert y == s[|a| + 1..] == b;
  }
}
