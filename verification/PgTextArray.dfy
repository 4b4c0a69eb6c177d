/** The database text-array literals for account and order ids. */
module PgTextArray {
  import opened Text

  function Escaped(): char -> string {
    (c: char) => if c == '"' || c == '\\' then ['\\', c] else [c]
  }

  function Element(item: string): string {
    "\"" + Expand(item, Escaped()) + "\""
  }

  function Body(items: seq<string>): string {
    if items == [] then ""
    else if |items| == 1 then Element(items[0])
    else Body(items[..|items| - 1]) + "," + Element(items[|items| - 1])
  }

  function Encoded(items: seq<string>): string {
    "{" + Body(items) + "}"
  }

  // ------------------------------------------------------------------- parsing

  /** The rest of a quoted element, up to but not including its closing quote. */
  function QuotedPart(s: string): (p: Parsed)
    ensures |p.rest| <= |s|
  {
    if s == "" || s[0] == '"' then Parsed("", s)
    else if s[0] == '\\' && |s| > 1 then
      After([s[1]], QuotedPart(s[2..]))
    else
      After([s[0]], QuotedPart(s[1..]))
  }

  function BarePart(s: string): (p: Parsed)
    ensures |p.rest| <= |s|
    ensures s != "" && s[0] != ',' ==> |p.rest| < |s|
  {
    if s == "" || s[0] == ',' then Parsed("", s) else After([s[0]], BarePart(s[1..]))
  }

  function Drop(s: string, n: nat): string {
    if n <= |s| then s[n..] else ""
  }

  /** Commas separate elements and may be repeated; an element is quoted or bare. */
  function Elements(s: string): seq<string>
    decreases |s|
  {
    if s == "" then []
    else if s[0] == ',' then Elements(s[1..])
    else if s[0] == '"' then
      var p := QuotedPart(s[1..]);
      [p.value] + Elements(Drop(p.rest, 1))
    else
      var p := BarePart(s);
      [p.value] + Elements(p.rest)
  }

  function Decoded(text: string): seq<string> {
    if |text| < 2 || text[0] != '{' || text[|text| - 1] != '}' then [] else Elements(text[1..|text| - 1])
  }

  // ------------------------------------------------------------------ round trip

  lemma {:induction false} BodyFront(items: seq<string>)
    requires |items| >= 2
    ensures Body(items) == Element(items[0]) + "," + Body(items[1..])
  {
    var n := |items| - 1;
    if n == 1 {
      assert items[..n] == [items[0]] && items[1..] == [items[1]];
    } else {
      BodyFront(items[..n]);
      assert items[..n][1..] == items[1..][..n - 1];
      var head, mid, last := Element(items[0]), Body(items[1..][..n - 1]), Element(items[n]);
      assert (head + "," + mid) + "," + last == head + "," + (mid + "," + last);
    }
  }

  lemma PlainAhead(c: char, tail: string)
    requires c != '"' && c != '\\'
    ensures QuotedPart([c] + tail) == After([c], QuotedPart(tail))
  {
    assert ([c] + tail)[1..] == tail;
  }

  lemma EscapedAhead(c: char, tail: string)
    ensures QuotedPart(['\\', c] + tail) == After([c], QuotedPart(tail))
  {
    assert (['\\', c] + tail)[2..] == tail;
  }

  lemma {:induction false} QuotedPartInverts(item: string, rest: string)
    ensures QuotedPart(Expand(item, Escaped()) + ("\"" + rest)) == Parsed(item, "\"" + rest)
  {
    if item == "" {
      assert Expand(item, Escaped()) + ("\"" + rest) == "\"" + rest;
    } else {
      hide QuotedPart;
      var c, tail := item[0], Expand(item[1..], Escaped()) + ("\"" + rest);
      ExpandAhead(item, Escaped(), "\"" + rest);
      QuotedPartInverts(item[1..], rest);
      HeadAndTail(item);
      if c == '"' || c == '\\' {
        EscapedAhead(c, tail);
      } else {
        PlainAhead(c, tail);
      }
    }
  }

  /** Parsing starts with the encoded element and then goes on with what follows it. */
  lemma ElementThenRest(item: string, rest: string)
    ensures Elements(Element(item) + rest) == [item] + Elements(rest)
  {
    hide QuotedPart, Expand;
    QuotedPartInverts(item, rest);
    Enclosed(Expand(item, Escaped()), rest);
    assert Drop("\"" + rest, 1) == rest;
  }

  lemma {:induction false} ElementsInvertBody(items: seq<string>)
    ensures Elements(Body(items)) == items
  {
    hide Elements, Element;
    NothingLeft();
    if |items| == 1 {
      ElementThenRest(items[0], "");
      assert Element(items[0]) + "" == Element(items[0]);
    } else if |items| >= 2 {
      var rest := Body(items[1..]);
      BodyFront(items);
      ElementsInvertBody(items[1..]);
      ElementThenRest(items[0], "," + rest);
      assert Element(items[0]) + "," + rest == Element(items[0]) + ("," + rest);
      CommaSkipped("," + rest);
      assert ("," + rest)[1..] == rest;
    }
  }

  /** Every list of strings survives, including empty strings, quotes, backslashes, commas and braces. */
  lemma RoundTrip(items: seq<string>)
    ensures Decoded(Encoded(items)) == items
  {
    var text := Encoded(items);
    assert text[1..|text| - 1] == Body(items);
    ElementsInvertBody(items);
  }

  // ------------------------------------- what the database itself may send back

  /** An item the database may leave unquoted. */
  predicate Plain(item: string) {
    item != "" && item[0] != '"' && ',' !in item
  }

  /** The items joined by commas, each quoted or not. */
  function MixedBody(items: seq<string>, quoted: seq<bool>): string
    requires |items| == |quoted|
  {
    if items == [] then ""
    else
      var head := if quoted[0] then Element(items[0]) else items[0];
      if |items| == 1 then head else head + "," + MixedBody(items[1..], quoted[1..])
  }

  lemma {:induction false} BarePartInverts(item: string, rest: string)
    requires ',' !in item && (rest == "" || rest[0] == ',')
    ensures BarePart(item + rest) == Parsed(item, rest)
  {
    if item == "" {
      assert item + rest == rest;
    } else {
      BarePartInverts(item[1..], rest);
      assert (item + rest)[1..] == item[1..] + rest;
      HeadAndTail(item);
    }
  }

  lemma PieceThenRest(item: string, quoted: bool, rest: string)
    requires quoted || Plain(item)
    requires rest == "" || rest[0] == ','
    ensures Elements((if quoted then Element(item) else item) + rest) == [item] + Elements(rest)
  {
    if quoted {
      ElementThenRest(item, rest);
    } else {
      BarePartInverts(item, rest);
      assert (item + rest)[0] == item[0] && item[0] in item;
    }
  }

  /** Any mixture of quoted and plain unquoted elements is read back as the items themselves. */
  lemma {:induction false} MixedRoundTrip(items: seq<string>, quoted: seq<bool>)
    requires |items| == |quoted| && forall i :: 0 <= i < |items| ==> quoted[i] || Plain(items[i])
    ensures Elements(MixedBody(items, quoted)) == items
  {
    hide Elements, Element;
    NothingLeft();
    if items != [] {
      var head := if quoted[0] then Element(items[0]) else items[0];
      if |items| == 1 {
        PieceThenRest(items[0], quoted[0], "");
        assert head + "" == head;
      } else {
        var rest := MixedBody(items[1..], quoted[1..]);
        MixedRoundTrip(items[1..], quoted[1..]);
        PieceThenRest(items[0], quoted[0], "," + rest);
        assert head + "," + rest == head + ("," + rest);
        CommaSkipped("," + rest);
        assert ("," + rest)[1..] == rest;
      }
    }
  }

  // ------------------------------------------------------------------- the code

  method AppendElement(prefix: string, item: string) returns (result: string)
    ensures result == prefix + Element(item)
  {
    result := prefix + "\"";
    for j := 0 to |item|
      invariant result == prefix + "\"" + Expand(item[..j], Escaped())
    {
      assert item[..j + 1][..j] == item[..j];
      var c := item[j];
      if c == '"' || c == '\\' {
        result := result + "\\";
      }
      result := result + [c];
    }
    assert item[..|item|] == item;
    result := result + "\"";
  }

  method ToPgTextArray(items: seq<string>) returns (result: string)
    ensures result == Encoded(items)
  {
    hide Element;
    result := "{";
    for i := 0 to |items|
      invariant result == "{" + Body(items[..i])
    {
      ElementAppended(items[..i], items[i]);
      assert items[..i + 1] == items[..i] + [items[i]];
      if i > 0 {
        result := result + ",";
      }
      result := AppendElement(result, items[i]);
    }
    assert items[..|items|] == items;
    result := result + "}";
  }

  lemma ElementAppended(before: seq<string>, item: string)
    ensures Body(before + [item]) == Body(before) + (if before == [] then "" else ",") + Element(item)
  {
    assert (before + [item])[..|before|] == before;
  }

  lemma QuotedStep(element: string, s: string)
    requires s != "" && s[0] != '"'
    ensures After(element, QuotedPart(s)) ==
            if s[0] == '\\' && |s| > 1 then After(element + [s[1]], QuotedPart(s[2..]))
            else After(element + [s[0]], QuotedPart(s[1..]))
  {
    hide After;
    AfterAfter(element, [s[0]], QuotedPart(s[1..]));
    if |s| > 1 {
      AfterAfter(element, [s[1]], QuotedPart(s[2..]));
    }
  }

  /** The characters from `from` up to the next unescaped quote, or to the end. */
  method ReadQuoted(text: string, from: nat) returns (element: string, i: nat)
    requires from <= |text|
    ensures from <= i <= |text| && QuotedPart(text[from..]) == Parsed(element, text[i..])
  {
    element, i := "", from;
    ghost var whole := QuotedPart(text[from..]);
    hide QuotedPart, After;
    AfterNothing(whole);
    while i < |text| && text[i] != '"'
      invariant from <= i <= |text| && whole == After(element, QuotedPart(text[i..]))
      decreases |text| - i
    {
      QuotedStep(element, text[i..]);
      assert text[i..][1..] == text[i + 1..];
      if text[i] == '\\' && i + 1 < |text| {
        assert text[i..][2..] == text[i + 2..];
        element := element + [text[i + 1]];
        i := i + 2;
      } else {
        element := element + [text[i]];
        i := i + 1;
      }
    }
    QuotedStops(text[i..]);
    AfterAll(element, text[i..]);
  }

  lemma QuotedStops(s: string)
    requires s == "" || s[0] == '"'
    ensures QuotedPart(s) == Parsed("", s)
  {
  }

  /** The characters from `from` up to the next comma, or to the end. */
  method ReadBare(text: string, from: nat) returns (element: string, i: nat)
    requires from <= |text|
    ensures from <= i <= |text| && BarePart(text[from..]) == Parsed(element, text[i..])
  {
    element, i := "", from;
    ghost var whole := BarePart(text[from..]);
    AfterNothing(whole);
    while i < |text| && text[i] != ','
      invariant from <= i <= |text| && whole == After(element, BarePart(text[i..]))
    {
      assert text[i..][1..] == text[i + 1..];
      AfterAfter(element, [text[i]], BarePart(text[i + 1..]));
      element := element + [text[i]];
      i := i + 1;
    }
    AfterAll(element, text[i..]);
  }

  /** One element, quoted or bare, and the position after it. */
  method ReadElement(text: string, from: nat) returns (element: string, i: nat)
    requires from < |text| && text[from] != ','
    ensures from < i <= |text| + 1
    ensures Elements(text[from..]) == [element] + Elements(Drop(text, i))
  {
    hide QuotedPart, BarePart;
    assert text[from..][1..] == text[from + 1..];
    if text[from] == '"' {
      element, i := ReadQuoted(text, from + 1);
      assert Drop(text[i..], 1) == Drop(text, i + 1);
      i := i + 1;
    } else {
      element, i := ReadBare(text, from);
    }
  }

  /** Reads up to, and not including, the closing brace. */
  method FromPgTextArray(text: string) returns (result: seq<string>)
    ensures result == Decoded(text)
  {
    hide Elements;
    NothingLeft();
    result := [];
    if |text| < 2 || text[0] != '{' || text[|text| - 1] != '}' {
      return;
    }
    var i: nat, inner := 1, text[..|text| - 1];
    assert inner[1..] == text[1..|text| - 1];
    while i < |inner|
      invariant 1 <= i && Decoded(text) == result + Elements(Drop(inner, i))
      decreases |inner| - i
    {
      if inner[i] == ',' {
        CommaSkipped(inner[i..]);
        assert inner[i..][1..] == inner[i + 1..];
        i := i + 1;
      } else {
        var element;
        element, i := ReadElement(inner, i);
        result := result + [element];
      }
    }
    assert result + [] == result;
  }

  lemma NothingLeft()
    ensures Elements("") == []
  {
  }

  lemma CommaSkipped(s: string)
    requires s != "" && s[0] == ','
    ensures Elements(s) == Elements(s[1..])
  {
  }
}
