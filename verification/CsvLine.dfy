/** One line of comma-separated values, quoted as in section 2 of RFC 4180. */
module CsvLine {
  import opened Text

  function Doubled(): char -> string {
    (c: char) => if c == '"' then "\"\"" else [c]
  }

  predicate NeedsQuoting(value: string) {
    ',' in value || '"' in value || '\n' in value
  }

  function Field(value: string): string {
    if NeedsQuoting(value) then "\"" + Expand(value, Doubled()) + "\"" else value
  }

  /** The fields joined by commas, as the writers do for every record. */
  function Line(values: seq<string>): string
    requires values != []
  {
    if |values| == 1 then Field(values[0]) else Field(values[0]) + "," + Line(values[1..])
  }

  // ------------------------------------------------------------------- parsing

  /** The rest of a quoted field, up to and including its closing quote. */
  function QuotedRest(s: string): (p: Parsed)
    ensures |p.rest| <= |s|
  {
    if s == "" then Parsed("", "")
    else if s[0] != '"' then After([s[0]], QuotedRest(s[1..]))
    else if |s| > 1 && s[1] == '"' then After("\"", QuotedRest(s[2..]))
    else Parsed("", s[1..])
  }

  function BareRest(s: string): (p: Parsed)
    ensures |p.rest| <= |s|
  {
    if s == "" || s[0] == ',' then Parsed("", s) else After([s[0]], BareRest(s[1..]))
  }

  function OneField(s: string): (p: Parsed)
    ensures |p.rest| <= |s|
  {
    if s != "" && s[0] == '"' then QuotedRest(s[1..]) else BareRest(s)
  }

  function Fields(s: string): seq<string>
    decreases |s|
  {
    var p := OneField(s);
    if p.rest != "" && p.rest[0] == ',' then [p.value] + Fields(p.rest[1..]) else [p.value]
  }

  // ------------------------------------------------------------------ round trip

  /** What follows a field on a line: nothing, or a comma. */
  predicate Ends(rest: string) {
    rest == "" || rest[0] == ','
  }

  lemma PlainAhead(c: char, tail: string)
    requires c != '"'
    ensures QuotedRest([c] + tail) == After([c], QuotedRest(tail))
  {
    assert ([c] + tail)[1..] == tail;
  }

  lemma DoubledAhead(tail: string)
    ensures QuotedRest("\"\"" + tail) == After("\"", QuotedRest(tail))
  {
    assert ("\"\"" + tail)[2..] == tail;
  }

  lemma ClosingAhead(rest: string)
    requires Ends(rest)
    ensures QuotedRest("\"" + rest) == Parsed("", rest)
  {
    assert ("\"" + rest)[1..] == rest;
  }

  lemma {:induction false} QuotedInverts(value: string, rest: string)
    requires Ends(rest)
    ensures QuotedRest(Expand(value, Doubled()) + ("\"" + rest)) == Parsed(value, rest)
  {
    hide QuotedRest, Ends;
    if value == "" {
      assert Expand(value, Doubled()) + ("\"" + rest) == "\"" + rest;
      ClosingAhead(rest);
    } else {
      var c, tail := value[0], Expand(value[1..], Doubled()) + ("\"" + rest);
      ExpandAhead(value, Doubled(), "\"" + rest);
      QuotedInverts(value[1..], rest);
      HeadAndTail(value);
      if c == '"' {
        DoubledAhead(tail);
      } else {
        PlainAhead(c, tail);
      }
    }
  }

  lemma {:induction false} BareInverts(value: string, rest: string)
    requires ',' !in value && Ends(rest)
    ensures BareRest(value + rest) == Parsed(value, rest)
  {
    if value == "" {
      assert value + rest == rest;
    } else {
      BareInverts(value[1..], rest);
      assert (value + rest)[1..] == value[1..] + rest;
      assert value == [value[0]] + value[1..];
    }
  }

  lemma FieldInverts(value: string, rest: string)
    requires Ends(rest)
    ensures OneField(Field(value) + rest) == Parsed(value, rest)
  {
    hide QuotedRest, BareRest, Expand;
    if NeedsQuoting(value) {
      QuotedInverts(value, rest);
      Enclosed(Expand(value, Doubled()), rest);
    } else {
      BareInverts(value, rest);
      assert value != "" ==> (value + rest)[0] in value;
    }
  }

  /** Parsing a line gives back every non-empty list of fields, whatever characters they hold. */
  lemma {:induction false} RoundTrip(values: seq<string>)
    requires values != []
    ensures Fields(Line(values)) == values
  {
    hide Field, OneField;
    if |values| == 1 {
      FieldInverts(values[0], "");
      assert Field(values[0]) + "" == Field(values[0]);
    } else {
      var tail := Line(values[1..]);
      FieldInverts(values[0], "," + tail);
      assert Line(values) == Field(values[0]) + ("," + tail);
      assert ("," + tail)[1..] == tail;
      RoundTrip(values[1..]);
    }
  }

  /** No line stands for no fields: an empty line is one empty field. */
  lemma EmptyListIsLost()
    ensures forall s :: Fields(s) != [] && Fields("") == [""]
  {
  }

  // ------------------------------------------------------------------- the code

  method CsvEscape(value: string) returns (out: string)
    ensures out == Field(value)
  {
    if !NeedsQuoting(value) {
      return value;
    }
    out := "\"";
    for i := 0 to |value|
      invariant out == "\"" + Expand(value[..i], Doubled())
    {
      assert value[..i + 1][..i] == value[..i];
      out := out + (if value[i] == '"' then "\"\"" else [value[i]]);
    }
    assert value[..|value|] == value;
    out := out + "\"";
  }

  /** What one step of the quoted loop reads. */
  lemma QuotedStep(read: string, s: string)
    requires s != ""
    ensures s[0] != '"' ==> After(read, QuotedRest(s)) == After(read + [s[0]], QuotedRest(s[1..]))
    ensures s[0] == '"' && |s| > 1 && s[1] == '"' ==> After(read, QuotedRest(s)) == After(read + "\"", QuotedRest(s[2..]))
    ensures s[0] == '"' && !(|s| > 1 && s[1] == '"') ==> After(read, QuotedRest(s)) == Parsed(read, s[1..])
  {
    hide After;
    AfterAll(read, s[1..]);
    AfterAfter(read, [s[0]], QuotedRest(s[1..]));
    if |s| > 1 {
      AfterAfter(read, "\"", QuotedRest(s[2..]));
    }
  }

  method ReadQuoted(line: string, from: nat) returns (field: string, i: nat)
    requires from <= |line|
    ensures from <= i <= |line| && QuotedRest(line[from..]) == Parsed(field, line[i..])
  {
    field, i := "", from;
    ghost var whole := QuotedRest(line[from..]);
    hide QuotedRest, After;
    NothingQuoted();
    AfterNothing(whole);
    while i < |line|
      invariant from <= i <= |line| && whole == After(field, QuotedRest(line[i..]))
      decreases |line| - i
    {
      QuotedStep(field, line[i..]);
      assert line[i..][1..] == line[i + 1..];
      if line[i] == '"' {
        if i + 1 < |line| && line[i + 1] == '"' {
          assert line[i..][2..] == line[i + 2..];
          field := field + "\"";
          i := i + 2;
          continue;
        }
        i := i + 1;
        return;
      }
      field := field + [line[i]];
      i := i + 1;
    }
    assert line[i..] == "";
    AfterAll(field, "");
  }

  lemma NothingQuoted()
    ensures QuotedRest("") == Parsed("", "")
  {
  }

  method ReadBare(line: string, from: nat) returns (field: string, i: nat)
    requires from <= |line|
    ensures from <= i <= |line| && BareRest(line[from..]) == Parsed(field, line[i..])
  {
    field, i := "", from;
    ghost var whole := BareRest(line[from..]);
    while i < |line| && line[i] != ','
      invariant from <= i <= |line| && whole == After(field, BareRest(line[i..]))
    {
      assert line[i..][1..] == line[i + 1..];
      AfterAfter(field, [line[i]], BareRest(line[i + 1..]));
      field := field + [line[i]];
      i := i + 1;
    }
    assert field + "" == field;
  }

  method ParseCsvLine(line: string) returns (fields: seq<string>)
    ensures fields == Fields(line)
  {
    fields := [];
    var i := 0;
    while true
      invariant i <= |line| && Fields(line) == fields + Fields(line[i..])
      decreases |line| - i
    {
      var start := i;
      var field;
      if i < |line| && line[i] == '"' {
        assert line[i..][1..] == line[i + 1..];
        field, i := ReadQuoted(line, i + 1);
      } else {
        field, i := ReadBare(line, i);
      }
      assert OneField(line[start..]) == Parsed(field, line[i..]);
      FieldsStep(fields, line[start..]);
      fields := fields + [field];
      if i < |line| && line[i] == ',' {
        assert line[i..][1..] == line[i + 1..];
        i := i + 1;
        continue;
      }
      break;
    }
  }

  lemma FieldsStep(read: seq<string>, s: string)
    ensures var p := OneField(s);
            read + Fields(s) ==
            if p.rest != "" && p.rest[0] == ',' then (read + [p.value]) + Fields(p.rest[1..]) else read + [p.value]
  {
  }
}
