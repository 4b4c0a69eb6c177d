/**
 The flat JSON objects on the event topic: one level, string or number values, and three escapes.
 A parse that throws is `None`.
 */
module FlatJson {
  import opened Options
  import opened Text

  // ------------------------------------------------------------------- writing

  function Escapes(): char -> string {
    (c: char) => if c == '"' then "\\\"" else if c == '\\' then "\\\\" else if c == '\n' then "\\n" else [c]
  }

  /** A field as written: a string value is escaped and quoted, a number is its own text. */
  datatype Field = TextField(key: string, value: string) | NumberField(key: string, value: string)

  function Quoted(s: string): string {
    "\"" + s + "\""
  }

  function ValueText(f: Field): string {
    if f.TextField? then Quoted(Expand(f.value, Escapes())) else f.value
  }

  function FieldText(f: Field): string {
    Quoted(f.key) + ":" + ValueText(f)
  }

  function FieldsText(fields: seq<Field>): string
    requires fields != []
  {
    if |fields| == 1 then FieldText(fields[0]) else FieldText(fields[0]) + "," + FieldsText(fields[1..])
  }

  function ObjectText(fields: seq<Field>): string
    requires fields != []
  {
    "{" + FieldsText(fields) + "}"
  }

  // ------------------------------------------------------------------- parsing

  predicate IsSpace(c: char) {
    c == ' ' || c == '\t' || c == '\n' || c == '\r' || c as int == 11 || c as int == 12
  }

  predicate IsNumeral(c: char) {
    '0' <= c <= '9' || c == '-' || c == '+' || c == '.' || c == 'e' || c == 'E'
  }

  function SkipWs(s: string): (t: string)
    ensures |t| <= |s|
  {
    if s != "" && IsSpace(s[0]) then SkipWs(s[1..]) else s
  }

  function Expect(s: string, c: char): (rest: Option<string>)
    ensures rest.Some? ==> |rest.value| < |s|
  {
    var t := SkipWs(s);
    if t == "" || t[0] != c then None else Some(t[1..])
  }

  predicate StartsEscape(s: string) {
    |s| > 1 && s[0] == '\\' && (s[1] == '"' || s[1] == '\\' || s[1] == 'n')
  }

  function Unescape(c: char): char {
    if c == 'n' then '\n' else c
  }

  /** The characters of a string up to, but not including, its closing quote. */
  function StringRest(s: string): (p: Parsed)
    ensures |p.rest| <= |s|
  {
    if s == "" || s[0] == '"' then Parsed("", s)
    else if StartsEscape(s) then After([Unescape(s[1])], StringRest(s[2..]))
    else After([s[0]], StringRest(s[1..]))
  }

  function RawString(s: string): (p: Option<Parsed>)
    ensures p.Some? ==> |p.value.rest| < |s|
  {
    match Expect(s, '"')
    case None => None
    case Some(t) =>
      var p := StringRest(t);
      match Expect(p.rest, '"')
      case None => None
      case Some(u) => Some(Parsed(p.value, u))
  }

  function NumberRest(s: string): (p: Parsed)
    ensures |p.rest| <= |s|
  {
    if s == "" || !IsNumeral(s[0]) then Parsed("", s) else After([s[0]], NumberRest(s[1..]))
  }

  function RawNumber(s: string): (p: Option<Parsed>)
    ensures p.Some? ==> |p.value.rest| <= |s|
  {
    var p := NumberRest(s);
    if p.value == "" then None else Some(p)
  }

  /** A value: a string if the next character is a quote, else a number. */
  function RawValue(s: string): (p: Option<Parsed>)
    ensures p.Some? ==> |p.value.rest| <= |s|
  {
    var t := SkipWs(s);
    if t == "" then None else if t[0] == '"' then RawString(t) else RawNumber(t)
  }

  /** One `key: value` pair and what follows it. */
  datatype Member = Member(key: string, value: string, rest: string)

  function OneMember(s: string): (m: Option<Member>)
    ensures m.Some? ==> |m.value.rest| < |s|
  {
    match RawString(s)
    case None => None
    case Some(k) =>
      match Expect(k.rest, ':')
      case None => None
      case Some(t) =>
        match RawValue(t)
        case None => None
        case Some(v) => Some(Member(k.value, v.value, v.rest))
  }

  /** The pairs of an object from its first one on; a repeated key keeps its last value. */
  function Members(s: string, fields: map<string, string>): Option<map<string, string>>
    decreases |s|
  {
    match OneMember(s)
    case None => None
    case Some(m) =>
      var all := fields[m.key := m.value];
      var t := SkipWs(m.rest);
      if t != "" && t[0] == ',' then Members(t[1..], all)
      else if t != "" && t[0] == '}' then Some(all) else None
  }

  /** Whatever follows the closing brace is ignored. */
  function ParseObject(s: string): Option<map<string, string>> {
    match Expect(s, '{')
    case None => None
    case Some(t) =>
      var u := SkipWs(t);
      if u == "" then None else if u[0] == '}' then Some(map[]) else Members(u, map[])
  }

  // ------------------------------------------------------------------ round trip

  predicate PlainKey(key: string) {
    '"' !in key && '\\' !in key
  }

  predicate WellWritten(f: Field) {
    PlainKey(f.key) && (f.NumberField? ==> f.value != "" && forall i :: 0 <= i < |f.value| ==> IsNumeral(f.value[i]))
  }

  /** What follows a value: a comma or the closing brace. */
  predicate Ends(rest: string) {
    rest != "" && (rest[0] == ',' || rest[0] == '}')
  }

  lemma PlainAhead(c: char, tail: string)
    requires c != '"' && c != '\\'
    ensures StringRest([c] + tail) == After([c], StringRest(tail))
  {
    assert ([c] + tail)[1..] == tail;
  }

  lemma EscapeAhead(c: char, tail: string)
    requires c == '"' || c == '\\' || c == 'n'
    ensures StringRest(['\\', c] + tail) == After([Unescape(c)], StringRest(tail))
  {
    assert (['\\', c] + tail)[2..] == tail;
  }

  lemma StringStops(rest: string)
    ensures StringRest("\"" + rest) == Parsed("", "\"" + rest)
  {
  }

  lemma {:induction false} EscapedInverts(value: string, rest: string)
    ensures StringRest(Expand(value, Escapes()) + ("\"" + rest)) == Parsed(value, "\"" + rest)
  {
    hide StringRest;
    if value == "" {
      assert Expand(value, Escapes()) + ("\"" + rest) == "\"" + rest;
      StringStops(rest);
    } else {
      var c, tail := value[0], Expand(value[1..], Escapes()) + ("\"" + rest);
      ExpandAhead(value, Escapes(), "\"" + rest);
      EscapedInverts(value[1..], rest);
      HeadAndTail(value);
      if c == '"' || c == '\\' {
        EscapeAhead(c, tail);
      } else if c == '\n' {
        EscapeAhead('n', tail);
      } else {
        PlainAhead(c, tail);
      }
    }
  }

  lemma {:induction false} PlainInverts(key: string, rest: string)
    requires PlainKey(key)
    ensures StringRest(key + ("\"" + rest)) == Parsed(key, "\"" + rest)
  {
    hide StringRest;
    if key == "" {
      assert key + ("\"" + rest) == "\"" + rest;
      StringStops(rest);
    } else {
      var tail := key[1..] + ("\"" + rest);
      assert key + ("\"" + rest) == [key[0]] + tail;
      PlainInverts(key[1..], rest);
      PlainAhead(key[0], tail);
      HeadAndTail(key);
    }
  }

  /** A quoted text is read back when its inside is. */
  lemma QuotedInverts(inside: string, value: string, rest: string)
    requires StringRest(inside + ("\"" + rest)) == Parsed(value, "\"" + rest)
    ensures RawString(Quoted(inside) + rest) == Some(Parsed(value, rest))
  {
    Enclosed(inside, rest);
    hide StringRest;
    assert Quoted(inside) + rest == "\"" + inside + "\"" + rest;
    assert Expect("\"" + rest, '"') == Some(rest) by {
      assert ("\"" + rest)[1..] == rest;
    }
  }

  lemma EndIsNoNumeral(c: char)
    requires c == ',' || c == '}'
    ensures !IsNumeral(c)
  {
  }

  lemma {:induction false} NumberInverts(value: string, rest: string)
    requires (forall i :: 0 <= i < |value| ==> IsNumeral(value[i])) && Ends(rest)
    ensures NumberRest(value + rest) == Parsed(value, rest)
  {
    if value == "" {
      assert value + rest == rest;
      EndIsNoNumeral(rest[0]);
    } else {
      NumberInverts(value[1..], rest);
      assert (value + rest)[1..] == value[1..] + rest;
      HeadAndTail(value);
    }
  }

  lemma ValueInverts(f: Field, rest: string)
    requires WellWritten(f) && Ends(rest)
    ensures RawValue(ValueText(f) + rest) == Some(Parsed(f.value, rest))
  {
    hide StringRest, NumberRest, Expand, RawString;
    var s := ValueText(f) + rest;
    if f.TextField? {
      EscapedInverts(f.value, rest);
      QuotedInverts(Expand(f.value, Escapes()), f.value, rest);
    } else {
      NumberInverts(f.value, rest);
      assert s[0] == f.value[0] && IsNumeral(f.value[0]);
    }
    assert SkipWs(s) == s;
  }

  lemma MemberInverts(f: Field, rest: string)
    requires WellWritten(f) && Ends(rest)
    ensures OneMember(FieldText(f) + rest) == Some(Member(f.key, f.value, rest))
  {
    hide StringRest, RawString, RawValue, ValueText, Quoted;
    var tail := ValueText(f) + rest;
    PlainInverts(f.key, ":" + tail);
    QuotedInverts(f.key, f.key, ":" + tail);
    ValueInverts(f, rest);
    assert FieldText(f) + rest == Quoted(f.key) + (":" + tail);
    assert (":" + tail)[1..] == tail;
  }

  /** The last value written for each key. */
  function Collect(fields: seq<Field>, start: map<string, string>): map<string, string> {
    if fields == [] then start else Collect(fields[1..], start[fields[0].key := fields[0].value])
  }

  lemma {:induction false} MembersInvert(fields: seq<Field>, start: map<string, string>)
    requires fields != [] && forall i :: 0 <= i < |fields| ==> WellWritten(fields[i])
    ensures Members(FieldsText(fields) + "}", start) == Some(Collect(fields, start))
  {
    hide OneMember, FieldText, WellWritten;
    var f := fields[0];
    var all := start[f.key := f.value];
    if |fields| == 1 {
      MemberInverts(f, "}");
    } else {
      var tail := FieldsText(fields[1..]) + "}";
      MemberInverts(f, "," + tail);
      assert FieldsText(fields) + "}" == FieldText(f) + ("," + tail);
      assert ("," + tail)[1..] == tail;
      MembersInvert(fields[1..], all);
    }
  }

  lemma FieldsStartQuoted(fields: seq<Field>)
    requires fields != []
    ensures FieldsText(fields) != "" && FieldsText(fields)[0] == '"'
  {
  }

  lemma BraceAhead(u: string)
    requires u != "" && u[0] == '"'
    ensures ParseObject("{" + u) == Members(u, map[])
  {
    hide Members;
    assert ("{" + u)[1..] == u;
  }

  /** Parsing an object as it is written gives every key its value. */
  lemma ObjectInverts(fields: seq<Field>)
    requires fields != [] && forall i :: 0 <= i < |fields| ==> WellWritten(fields[i])
    ensures ParseObject(ObjectText(fields)) == Some(Collect(fields, map[]))
  {
    hide FieldsText, Members, WellWritten, ParseObject, Collect;
    var u := FieldsText(fields) + "}";
    MembersInvert(fields, map[]);
    FieldsStartQuoted(fields);
    BraceAhead(u);
    assert ObjectText(fields) == "{" + u;
  }

  ghost predicate KeysDistinct(fields: seq<Field>) {
    forall i, j :: 0 <= i < j < |fields| ==> fields[i].key != fields[j].key
  }

  lemma {:induction false} CollectKeeps(fields: seq<Field>, start: map<string, string>, key: string)
    requires key in start && forall i :: 0 <= i < |fields| ==> fields[i].key != key
    ensures key in Collect(fields, start) && Collect(fields, start)[key] == start[key]
  {
    if fields != [] {
      CollectKeeps(fields[1..], start[fields[0].key := fields[0].value], key);
    }
  }

  lemma {:induction false} CollectLookup(fields: seq<Field>, start: map<string, string>, i: nat)
    requires KeysDistinct(fields) && i < |fields|
    ensures fields[i].key in Collect(fields, start) && Collect(fields, start)[fields[i].key] == fields[i].value
  {
    var next := start[fields[0].key := fields[0].value];
    if i == 0 {
      CollectKeeps(fields[1..], next, fields[0].key);
    } else {
      CollectLookup(fields[1..], next, i - 1);
    }
  }
}
