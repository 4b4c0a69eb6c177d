/** The exact texts of the formats, which a round trip alone would leave open. */
module CodecTexts {
  import opened Options
  import opened FixTypes
  import opened Text
  import PgTextArray
  import CsvLine
  import opened FlatJson
  import opened EventCodec

  // ------------------------------------------------------------ escaped strings

  predicate Plain(s: string, f: char -> string) {
    forall i :: 0 <= i < |s| ==> f(s[i]) == [s[i]]
  }

  lemma ExpandOne(c: char, f: char -> string)
    ensures Expand([c], f) == f(c)
  {
    assert [c][..0] == "";
    assert "" + f(c) == f(c);
  }

  lemma {:induction false} ExpandPlain(s: string, f: char -> string)
    requires Plain(s, f)
    ensures Expand(s, f) == s
  {
    if s != "" {
      PlainFront(s, f);
      hide Plain;
      ExpandPlain(s[..|s| - 1], f);
      assert s == s[..|s| - 1] + [s[|s| - 1]];
    }
  }

  lemma PlainFront(s: string, f: char -> string)
    requires s != "" && Plain(s, f)
    ensures Plain(s[..|s| - 1], f) && f(s[|s| - 1]) == [s[|s| - 1]]
  {
  }

  lemma {:induction false} ExpandJoined(s: string, t: string, f: char -> string)
    ensures Expand(s + t, f) == Expand(s, f) + Expand(t, f)
  {
    if t == "" {
      assert s + t == s;
    } else {
      var n := |t| - 1;
      assert (s + t)[..|s + t| - 1] == s + t[..n];
      ExpandJoined(s, t[..n], f);
      hide Expand;
      assert Expand(s, f) + (Expand(t[..n], f) + f(t[n])) == (Expand(s, f) + Expand(t[..n], f)) + f(t[n]);
    }
  }

  /** One special character in the midst of plain ones. */
  lemma ExpandAmong(before: string, c: char, after: string, f: char -> string)
    requires Plain(before, f) && Plain(after, f)
    ensures Expand(before + [c] + after, f) == before + f(c) + after
  {
    hide Expand;
    ExpandPlain(before, f);
    ExpandPlain(after, f);
    ExpandOne(c, f);
    ExpandJoined(before, [c], f);
    ExpandJoined(before + [c], after, f);
  }

  /** In an array literal every element stands in quotes, with a backslash before each quote and backslash of it. */
  lemma ArrayElement(before: string, after: string)
    requires forall i :: 0 <= i < |before| ==> before[i] != '"' && before[i] != '\\'
    requires forall i :: 0 <= i < |after| ==> after[i] != '"' && after[i] != '\\'
    ensures PgTextArray.Element(before) == "\"" + before + "\""
    ensures PgTextArray.Element(before + "\"" + after) == "\"" + (before + "\\\"" + after) + "\""
    ensures PgTextArray.Element(before + "\\" + after) == "\"" + (before + "\\\\" + after) + "\""
  {
    var f := PgTextArray.Escaped();
    hide Expand;
    ExpandPlain(before, f);
    ExpandAmong(before, '"', after, f);
    ExpandAmong(before, '\\', after, f);
  }

  /** The elements stand between braces, with commas between them. */
  lemma ArrayOfTwo(a: string, b: string)
    ensures PgTextArray.Encoded([]) == "{}"
    ensures PgTextArray.Encoded([a]) == "{" + PgTextArray.Element(a) + "}"
    ensures PgTextArray.Encoded([a, b]) == "{" + (PgTextArray.Element(a) + "," + PgTextArray.Element(b)) + "}"
  {
    hide PgTextArray.Element;
    assert [a, b][..1] == [a];
    assert "{" + "" + "}" == "{}";
  }

  /** A field is written as it is unless it holds a comma, a quote or a line break; then in quotes, its quotes doubled. */
  lemma CsvField(before: string, after: string)
    requires forall i :: 0 <= i < |before| ==> before[i] != '"' && before[i] != ',' && before[i] != '\n'
    requires forall i :: 0 <= i < |after| ==> after[i] != '"' && after[i] != ',' && after[i] != '\n'
    ensures CsvLine.Field(before) == before
    ensures CsvLine.Field(before + "," + after) == "\"" + (before + "," + after) + "\""
    ensures CsvLine.Field(before + "\n" + after) == "\"" + (before + "\n" + after) + "\""
    ensures CsvLine.Field(before + "\"" + after) == "\"" + (before + "\"\"" + after) + "\""
  {
    hide Expand, CsvLine.NeedsQuoting;
    var f := CsvLine.Doubled();
    NoQuotes(before);
    Quotes(before, ',', after);
    Quotes(before, '\n', after);
    Quotes(before, '"', after);
    PlainAmong(before, ',', after);
    PlainAmong(before, '\n', after);
    ExpandPlain(before + "," + after, f);
    ExpandPlain(before + "\n" + after, f);
    ExpandAmong(before, '"', after, f);
  }

  lemma NoQuotes(s: string)
    requires forall i :: 0 <= i < |s| ==> s[i] != '"' && s[i] != ',' && s[i] != '\n'
    ensures !CsvLine.NeedsQuoting(s)
  {
  }

  lemma Quotes(before: string, c: char, after: string)
    requires c == '"' || c == ',' || c == '\n'
    ensures CsvLine.NeedsQuoting(before + [c] + after)
  {
    assert (before + [c] + after)[|before|] == c;
  }

  lemma PlainAmong(before: string, c: char, after: string)
    requires forall i :: 0 <= i < |before| ==> before[i] != '"'
    requires forall i :: 0 <= i < |after| ==> after[i] != '"'
    requires c != '"'
    ensures Plain(before + [c] + after, CsvLine.Doubled())
  {
  }

  lemma CsvTwo(a: string, b: string)
    ensures CsvLine.Line([a]) == CsvLine.Field(a)
    ensures CsvLine.Line([a, b]) == CsvLine.Field(a) + "," + CsvLine.Field(b)
  {
    hide CsvLine.Field;
    assert [a, b][1..] == [b];
  }

  /** A JSON string has its quotes, backslashes and line breaks escaped, and nothing else. */
  lemma JsonString(before: string, after: string)
    requires forall i :: 0 <= i < |before| ==> before[i] != '"' && before[i] != '\\' && before[i] != '\n'
    requires forall i :: 0 <= i < |after| ==> after[i] != '"' && after[i] != '\\' && after[i] != '\n'
    ensures Expand(before, Escapes()) == before
    ensures Expand(before + "\"" + after, Escapes()) == before + "\\\"" + after
    ensures Expand(before + "\\" + after, Escapes()) == before + "\\\\" + after
    ensures Expand(before + "\n" + after, Escapes()) == before + "\\n" + after
  {
    hide Expand;
    ExpandPlain(before, Escapes());
    ExpandAmong(before, '"', after, Escapes());
    ExpandAmong(before, '\\', after, Escapes());
    ExpandAmong(before, '\n', after, Escapes());
  }

  /** An object of a text and a number. */
  lemma JsonOfTwo(key: string, text: string, other: string, number: string)
    ensures var first := "\"" + key + "\"" + ":" + ("\"" + Expand(text, Escapes()) + "\"");
            var second := "\"" + other + "\"" + ":" + number;
            ObjectText([TextField(key, text), NumberField(other, number)]) == "{" + (first + "," + second) + "}"
  {
    hide Expand;
    var fields := [TextField(key, text), NumberField(other, number)];
    assert fields[1..] == [NumberField(other, number)];
    assert FieldText(fields[0]) == "\"" + key + "\"" + ":" + ("\"" + Expand(text, Escapes()) + "\"");
    assert FieldText(fields[1]) == "\"" + other + "\"" + ":" + number;
    assert FieldsText(fields) == FieldText(fields[0]) + "," + FieldText(fields[1]);
  }

  // ---------------------------------------------------------------- decoded maps

  /** The names used for sides, order types and statuses. */
  lemma NamesAre()
    ensures SideText(Buy) == "Buy" && SideText(Sell) == "Sell"
    ensures OrderTypeText(Limit) == "Limit" && OrderTypeText(Market) == "Market"
    ensures StatusText(New) == "New" && StatusText(Cancelled) == "Cancelled" && StatusText(Replaced) == "Replaced"
  {
  }

  /** What anybody reads under `key` in an object. */
  predicate Reads(json: string, key: string, value: string) {
    match ParseObject(json)
    case Some(fields) => key in fields && fields[key] == value
    case None => false
  }

  lemma WrittenIsRead(fields: seq<Field>, i: nat)
    requires i < |fields| && KeysDistinct(fields)
    requires forall k :: 0 <= k < |fields| ==> WellWritten(fields[k])
    ensures Reads(ObjectText(fields), fields[i].key, fields[i].value)
  {
    ObjectInverts(fields);
    CollectLookup(fields, map[], i);
  }

  /** An order travels as an object with these keys, each holding the field it names. */
  lemma OrderKeys(codec: PriceCodec, o: Order)
    requires Represents(codec, o.price)
    ensures var json := Encode(codec, OrderEvent(o));
            && Reads(json, "type", "order") && Reads(json, "order_id", o.orderId) && Reads(json, "account_id", o.accountId)
            && Reads(json, "instrument_id", o.instrumentId) && Reads(json, "side", SideText(o.side))
            && Reads(json, "price", codec.render(o.price)) && Reads(json, "qty", IntText(o.qty))
            && Reads(json, "order_type", OrderTypeText(o.orderType)) && Reads(json, "timestamp_ns", IntText(o.timestampNs))
            && Reads(json, "status", StatusText(o.status)) && Reads(json, "venue", o.venue)
            && Reads(json, "orig_order_id", o.origOrderId)
  {
    hide ObjectText, Reads, Represents, WellWritten, KeysDistinct, IntText, SideText, OrderTypeText, StatusText;
    var fields := OrderFields(codec, o);
    OrderFieldsWellWritten(codec, o);
    OrderKeysDistinct(codec, o);
    assert Encode(codec, OrderEvent(o)) == ObjectText(fields);
    forall i | 0 <= i < |fields|
      ensures Reads(ObjectText(fields), fields[i].key, fields[i].value)
    {
      WrittenIsRead(fields, i);
    }
    assert fields[0] == TextField("type", "order") && fields[1].key == "order_id" && fields[2].key == "account_id";
    assert fields[3].key == "instrument_id" && fields[4].key == "side" && fields[5].key == "price";
    assert fields[6].key == "qty" && fields[7].key == "order_type" && fields[8].key == "timestamp_ns";
    assert fields[9].key == "status" && fields[10].key == "venue" && fields[11].key == "orig_order_id";
  }

  /** And an execution with these. */
  lemma ExecutionKeys(codec: PriceCodec, x: Execution)
    requires Represents(codec, x.price)
    ensures var json := Encode(codec, ExecutionEvent(x));
            && Reads(json, "type", "execution") && Reads(json, "trade_id", x.tradeId) && Reads(json, "order_id", x.orderId)
            && Reads(json, "account_id", x.accountId) && Reads(json, "instrument_id", x.instrumentId)
            && Reads(json, "side", SideText(x.side)) && Reads(json, "price", codec.render(x.price))
            && Reads(json, "qty", IntText(x.qty)) && Reads(json, "timestamp_ns", IntText(x.timestampNs))
            && Reads(json, "counterparty_account_id", x.counterpartyAccountId) && Reads(json, "venue", x.venue)
  {
    hide ObjectText, Reads, Represents, WellWritten, KeysDistinct, IntText, SideText;
    var fields := ExecutionFields(codec, x);
    ExecutionFieldsWellWritten(codec, x);
    ExecutionKeysDistinct(codec, x);
    assert Encode(codec, ExecutionEvent(x)) == ObjectText(fields);
    forall i | 0 <= i < |fields|
      ensures Reads(ObjectText(fields), fields[i].key, fields[i].value)
    {
      WrittenIsRead(fields, i);
    }
    assert fields[0] == TextField("type", "execution") && fields[1].key == "trade_id" && fields[2].key == "order_id";
    assert fields[3].key == "account_id" && fields[4].key == "instrument_id" && fields[5].key == "side";
    assert fields[6].key == "price" && fields[7].key == "qty" && fields[8].key == "timestamp_ns";
    assert fields[9].key == "counterparty_account_id" && fields[10].key == "venue";
  }

  /** Integers are written in decimal, from the highest digit down, with a minus sign if negative. */
  lemma Decimal(n: nat, d: nat)
    requires d < 10
    ensures IntText(d) == [['0', '1', '2', '3', '4', '5', '6', '7', '8', '9'][d]]
    ensures n > 0 ==> IntText(10 * n + d) == IntText(n) + IntText(d) && IntText(-(n as int)) == "-" + IntText(n)
  {
  }
}
