/** Character-by-character rewriting and consuming of strings, shared by the codecs. */
module Text {

  /** Every character replaced by its expansion. */
  function Expand(s: string, f: char -> string): string {
    if s == "" then "" else Expand(s[..|s| - 1], f) + f(s[|s| - 1])
  }

  lemma {:induction false} ExpandFront(s: string, f: char -> string)
    requires s != ""
    ensures Expand(s, f) == f(s[0]) + Expand(s[1..], f)
  {
    var n := |s| - 1;
    if n > 0 {
      ExpandFront(s[..n], f);
      assert s[..n][1..] == s[1..][..n - 1];
      calc {
        Expand(s, f);
        (f(s[0]) + Expand(s[1..][..n - 1], f)) + f(s[n]);
        f(s[0]) + (Expand(s[1..][..n - 1], f) + f(s[n]));
        f(s[0]) + Expand(s[1..], f);
      }
    } else {
      assert s[1..] == "" && s[..n] == "";
      assert Expand("", f) == "";
    }
  }

  /** The same with a suffix: the first expansion comes first, everything else after it. */
  lemma ExpandAhead(s: string, f: char -> string, rest: string)
    requires s != ""
    ensures Expand(s, f) + rest == f(s[0]) + (Expand(s[1..], f) + rest)
  {
    ExpandFront(s, f);
    hide Expand;
  }

  /** A piece of parsed text and what follows it. */
  datatype Parsed = Parsed(value: string, rest: string)

  /** A piece found after some text of it has already been read. */
  function After(read: string, p: Parsed): Parsed {
    Parsed(read + p.value, p.rest)
  }

  lemma AfterAfter(first: string, second: string, p: Parsed)
    ensures After(first, After(second, p)) == After(first + second, p)
  {
    assert first + (second + p.value) == first + second + p.value;
  }

  lemma AfterNothing(p: Parsed)
    ensures After("", p) == p
  {
    assert "" + p.value == p.value;
  }

  lemma AfterAll(read: string, rest: string)
    ensures After(read, Parsed("", rest)) == Parsed(read, rest)
  {
    assert read + "" == read;
  }

  lemma HeadAndTail(s: string)
    requires s != ""
    ensures [s[0]] + s[1..] == s
  {
  }

  lemma Enclosed(body: string, rest: string)
    ensures var s := "\"" + body + "\"" + rest;
            s != "" && s[0] == '"' && s[1..] == body + ("\"" + rest)
  {
  }
}
