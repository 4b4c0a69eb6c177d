/** The parser with its cursor, proved against parsing by suffixes. */
module FlatJsonParsers {
  import opened Options
  import opened Text
  import opened FlatJson

  class FlatJsonParser {
    const text: string
    var pos: nat

    ghost predicate Valid()
      reads this
    {
      pos <= |text|
    }

    ghost function Ahead(): string
      reads this
      requires Valid()
    {
      text[pos..]
    }

    constructor (text: string)
      ensures Valid() && Ahead() == text && this.text == text
    {
      this.text := text;
      pos := 0;
    }

    method SkipSpaces()
      requires Valid()
      modifies this
      ensures Valid() && Ahead() == SkipWs(old(Ahead()))
    {
      while pos < |text| && IsSpace(text[pos])
        invariant Valid() && SkipWs(Ahead()) == SkipWs(old(Ahead()))
      {
        assert text[pos..][1..] == text[pos + 1..];
        pos := pos + 1;
      }
    }

    /** The next character that is not a space; none at the end of the text. */
    method Peek() returns (c: Option<char>)
      requires Valid()
      modifies this
      ensures Valid() && Ahead() == SkipWs(old(Ahead()))
      ensures c == if Ahead() == "" then None else Some(Ahead()[0])
    {
      SkipSpaces();
      c := if pos < |text| then Some(text[pos]) else None;
    }

    method Take(c: char) returns (ok: bool)
      requires Valid()
      modifies this
      ensures Valid() && ok == Expect(old(Ahead()), c).Some?
      ensures ok ==> Expect(old(Ahead()), c) == Some(Ahead())
    {
      var next := Peek();
      ok := next == Some(c);
      if ok {
        assert text[pos..][1..] == text[pos + 1..];
        pos := pos + 1;
      }
    }

    /** The loop over the characters of a string. */
    method ReadString() returns (out: string)
      requires Valid()
      modifies this
      ensures Valid() && StringRest(old(Ahead())) == Parsed(out, Ahead())
    {
      hide StringRest, After;
      out := "";
      ghost var whole := StringRest(Ahead());
      AfterNothing(whole);
      while pos < |text| && text[pos] != '"'
        invariant Valid() && whole == After(out, StringRest(Ahead()))
        decreases |text| - pos
      {
        StringStep(out, Ahead());
        assert text[pos..][1..] == text[pos + 1..];
        var c := text[pos];
        if c == '\\' && pos + 1 < |text| {
          assert text[pos..][2..] == text[pos + 2..];
          var next := text[pos + 1];
          if next == '"' { out := out + "\""; pos := pos + 2; continue; }
          if next == '\\' { out := out + "\\"; pos := pos + 2; continue; }
          if next == 'n' { out := out + "\n"; pos := pos + 2; continue; }
        }
        out := out + [c];
        pos := pos + 1;
      }
      StringEnds(Ahead());
      AfterAll(out, Ahead());
    }

    static lemma StringStep(read: string, s: string)
      requires s != "" && s[0] != '"'
      ensures After(read, StringRest(s)) ==
              if StartsEscape(s) then After(read + [Unescape(s[1])], StringRest(s[2..]))
              else After(read + [s[0]], StringRest(s[1..]))
    {
      hide After;
      AfterAfter(read, [s[0]], StringRest(s[1..]));
      if |s| > 1 {
        AfterAfter(read, [Unescape(s[1])], StringRest(s[2..]));
      }
    }

    static lemma StringEnds(s: string)
      requires s == "" || s[0] == '"'
      ensures StringRest(s) == Parsed("", s)
    {
    }

    method ParseRawString() returns (out: Option<string>)
      requires Valid()
      modifies this
      ensures Valid() && out.Some? == RawString(old(Ahead())).Some?
      ensures out.Some? ==> RawString(old(Ahead())) == Some(Parsed(out.value, Ahead()))
    {
      hide StringRest, SkipWs;
      var ok := Take('"');
      if !ok {
        return None;
      }
      var s := ReadString();
      ok := Take('"');
      if !ok {
        return None;
      }
      out := Some(s);
    }

    method ParseRawNumber() returns (out: Option<string>)
      requires Valid()
      modifies this
      ensures Valid() && out.Some? == RawNumber(old(Ahead())).Some?
      ensures out.Some? ==> RawNumber(old(Ahead())) == Some(Parsed(out.value, Ahead()))
    {
      hide After;
      var start := pos;
      ghost var whole := NumberRest(Ahead());
      AfterNothing(whole);
      assert text[start..pos] == "";
      while pos < |text| && IsNumeral(text[pos])
        invariant Valid() && start <= pos && whole == After(text[start..pos], NumberRest(Ahead()))
      {
        assert text[pos..][1..] == text[pos + 1..];
        assert text[start..pos + 1] == text[start..pos] + [text[pos]];
        AfterAfter(text[start..pos], [text[pos]], NumberRest(text[pos + 1..]));
        pos := pos + 1;
      }
      AfterAll(text[start..pos], Ahead());
      out := if pos == start then None else Some(text[start..pos]);
    }

    method ParseMember() returns (member: Option<(string, string)>)
      requires Valid()
      modifies this
      ensures Valid() && member.Some? == OneMember(old(Ahead())).Some?
      ensures member.Some? ==> OneMember(old(Ahead())) == Some(Member(member.value.0, member.value.1, Ahead()))
    {
      hide RawString, RawNumber, Expect, SkipWs;
      var key := ParseRawString();
      if key.None? {
        return None;
      }
      var ok := Take(':');
      if !ok {
        return None;
      }
      var next := Peek();
      if next.None? {
        return None;
      }
      var value;
      if next.value == '"' {
        value := ParseRawString();
      } else {
        value := ParseRawNumber();
      }
      if value.None? {
        return None;
      }
      member := Some((key.value, value.value));
    }

    /** The loop over the members, up to the closing brace. */
    method ParseMembers() returns (fields: Option<map<string, string>>)
      requires Valid()
      modifies this
      ensures Valid() && fields == Members(old(Ahead()), map[])
    {
      hide OneMember, SkipWs;
      var all: map<string, string> := map[];
      while true
        invariant Valid() && Members(old(Ahead()), map[]) == Members(Ahead(), all)
        decreases |text| - pos
      {
        var member := ParseMember();
        if member.None? {
          return None;
        }
        all := all[member.value.0 := member.value.1];
        var next := Peek();
        if next == Some(',') {
          assert text[pos..][1..] == text[pos + 1..];
          pos := pos + 1;
          continue;
        }
        return if next == Some('}') then Some(all) else None;
      }
    }

    method ParseObject() returns (fields: Option<map<string, string>>)
      requires Valid()
      modifies this
      ensures fields == FlatJson.ParseObject(old(Ahead()))
    {
      hide Members, SkipWs;
      var ok := Take('{');
      if !ok {
        return None;
      }
      var next := Peek();
      if next.None? {
        return None;
      }
      if next.value == '}' {
        return Some(map[]);
      }
      fields := ParseMembers();
    }
  }
}
