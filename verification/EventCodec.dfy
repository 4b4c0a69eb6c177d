/** Events as the JSON text that travels over the topic, and back. Decoding that throws is `None`. */
module EventCodec {
  import opened Options
  import opened FixTypes
  import opened Text
  import opened FlatJson
  import opened FlatJsonParsers

  // ------------------------------------------------------------------ enum names

  function SideText(s: Side): string {
    match s case Buy => "Buy" case Sell => "Sell"
  }

  function SideFrom(t: string): Option<Side> {
    if t == "Buy" then Some(Buy) else if t == "Sell" then Some(Sell) else None
  }

  function OrderTypeText(o: OrderType): string {
    match o case Limit => "Limit" case Market => "Market"
  }

  function OrderTypeFrom(t: string): Option<OrderType> {
    if t == "Limit" then Some(Limit) else if t == "Market" then Some(Market) else None
  }

  function StatusText(s: OrderStatus): string {
    match s case New => "New" case Cancelled => "Cancelled" case Replaced => "Replaced"
  }

  function StatusFrom(t: string): Option<OrderStatus> {
    if t == "New" then Some(New) else if t == "Cancelled" then Some(Cancelled)
    else if t == "Replaced" then Some(Replaced) else None
  }

  /** A name decodes to a value exactly when it is that value's own name. */
  lemma NamesAreExact(t: string)
    ensures forall s :: SideFrom(t) == Some(s) <==> t == SideText(s)
    ensures forall o :: OrderTypeFrom(t) == Some(o) <==> t == OrderTypeText(o)
    ensures forall u :: StatusFrom(t) == Some(u) <==> t == StatusText(u)
  {
    assert "Buy"[0] != "Sell"[0] && "Limit"[0] != "Market"[0];
    assert "New"[0] != "Cancelled"[0] && "New"[0] != "Replaced"[0] && "Cancelled"[0] != "Replaced"[0];
  }

  // -------------------------------------------------------------------- integers

  function Digit(d: nat): char
    requires d < 10
  {
    '0' + d as char
  }

  predicate IsDigit(c: char) {
    '0' <= c <= '9'
  }

  function NatText(n: nat): string {
    if n < 10 then [Digit(n)] else NatText(n / 10) + [Digit(n % 10)]
  }

  function IntText(n: int): string {
    if n < 0 then "-" + NatText(-n) else NatText(n)
  }

  /** The longest prefix of digits. */
  function Digits(s: string): (d: string)
    ensures forall i :: 0 <= i < |d| ==> IsDigit(d[i])
  {
    if s == "" || !IsDigit(s[0]) then "" else [s[0]] + Digits(s[1..])
  }

  function DigitsValue(d: string): nat
    requires forall i :: 0 <= i < |d| ==> IsDigit(d[i])
  {
    if d == "" then 0
    else
      var last := d[|d| - 1];
      assert IsDigit(last);
      DigitsValue(d[..|d| - 1]) * 10 + (last - '0') as nat
  }

  function NatFrom(s: string): Option<int> {
    var d := Digits(s);
    if d == "" then None else Some(DigitsValue(d))
  }

  /** As `std::stoll` reads: spaces, an optional sign, then at least one digit; the rest is ignored. */
  function IntFrom(text: string): Option<int> {
    var s := SkipWs(text);
    if s != "" && s[0] == '-' then
      match NatFrom(s[1..]) case None => None case Some(n) => Some(-n)
    else if s != "" && s[0] == '+' then NatFrom(s[1..])
    else NatFrom(s)
  }

  lemma {:induction false} AllDigits(s: string)
    requires forall i :: 0 <= i < |s| ==> IsDigit(s[i])
    ensures Digits(s) == s
  {
    if s != "" {
      AllDigits(s[1..]);
      HeadAndTail(s);
    }
  }

  lemma {:induction false} NatTextIsDigits(n: nat)
    ensures NatText(n) != "" && forall i :: 0 <= i < |NatText(n)| ==> IsDigit(NatText(n)[i])
    ensures DigitsValue(NatText(n)) == n
  {
    if n >= 10 {
      NatTextIsDigits(n / 10);
      var t := NatText(n / 10);
      assert (t + [Digit(n % 10)])[..|t|] == t;
    } else {
      assert [Digit(n)][..0] == "";
    }
  }

  lemma IntRoundTrip(n: int)
    ensures IntFrom(IntText(n)) == Some(n)
    ensures IntText(n) != "" && forall i :: 0 <= i < |IntText(n)| ==> IsNumeral(IntText(n)[i])
  {
    var m := if n < 0 then -n else n;
    NatTextIsDigits(m);
    AllDigits(NatText(m));
    hide NatText, Digits, DigitsValue;
    assert IsDigit(NatText(m)[0]);
    assert ("-" + NatText(m))[1..] == NatText(m);
  }

  // ------------------------------------------------------------------- encoding

  /** Printing and parsing of prices, which this model does not look into. */
  datatype PriceCodec = PriceCodec(render: real -> string, parse: string -> Option<real>)

  /** The price survives printing: its text is a numeral, and it is parsed back to the price. */
  ghost predicate Represents(codec: PriceCodec, price: real) {
    var t := codec.render(price);
    t != "" && (forall i :: 0 <= i < |t| ==> IsNumeral(t[i])) && codec.parse(t) == Some(price)
  }

  function OrderFields(codec: PriceCodec, o: Order): seq<Field> {
    [TextField("type", "order"), TextField("order_id", o.orderId), TextField("account_id", o.accountId),
     TextField("instrument_id", o.instrumentId), TextField("side", SideText(o.side)),
     NumberField("price", codec.render(o.price)), NumberField("qty", IntText(o.qty)),
     TextField("order_type", OrderTypeText(o.orderType)), NumberField("timestamp_ns", IntText(o.timestampNs)),
     TextField("status", StatusText(o.status)), TextField("venue", o.venue), TextField("orig_order_id", o.origOrderId)]
  }

  function ExecutionFields(codec: PriceCodec, x: Execution): seq<Field> {
    [TextField("type", "execution"), TextField("trade_id", x.tradeId), TextField("order_id", x.orderId),
     TextField("account_id", x.accountId), TextField("instrument_id", x.instrumentId), TextField("side", SideText(x.side)),
     NumberField("price", codec.render(x.price)), NumberField("qty", IntText(x.qty)),
     NumberField("timestamp_ns", IntText(x.timestampNs)),
     TextField("counterparty_account_id", x.counterpartyAccountId), TextField("venue", x.venue)]
  }

  function FieldsOf(codec: PriceCodec, e: Event): (fields: seq<Field>)
    ensures fields != []
  {
    match e case OrderEvent(o) => OrderFields(codec, o) case ExecutionEvent(x) => ExecutionFields(codec, x)
  }

  function Encode(codec: PriceCodec, e: Event): string {
    ObjectText(FieldsOf(codec, e))
  }

  // ------------------------------------------------------------------- decoding

  function Require(fields: map<string, string>, key: string): Option<string> {
    if key in fields then Some(fields[key]) else None
  }

  function Bind<A, B>(a: Option<A>, f: A -> Option<B>): Option<B> {
    match a case None => None case Some(v) => f(v)
  }

  function OrderFrom(codec: PriceCodec, fields: map<string, string>): Option<Order> {
    var orderId, accountId := Require(fields, "order_id"), Require(fields, "account_id");
    var instrumentId, venue := Require(fields, "instrument_id"), Require(fields, "venue");
    var origOrderId := Require(fields, "orig_order_id");
    var side := Bind(Require(fields, "side"), SideFrom);
    var price, qty := Bind(Require(fields, "price"), codec.parse), Bind(Require(fields, "qty"), IntFrom);
    var orderType := Bind(Require(fields, "order_type"), OrderTypeFrom);
    var timestampNs := Bind(Require(fields, "timestamp_ns"), IntFrom);
    var status := Bind(Require(fields, "status"), StatusFrom);
    if orderId.None? || accountId.None? || instrumentId.None? || venue.None? || origOrderId.None? || side.None?
       || price.None? || qty.None? || orderType.None? || timestampNs.None? || status.None? then None
    else Some(Order(orderId.value, accountId.value, instrumentId.value, side.value, price.value, qty.value,
                    orderType.value, timestampNs.value, status.value, venue.value, origOrderId.value))
  }

  function ExecutionFrom(codec: PriceCodec, fields: map<string, string>): Option<Execution> {
    var tradeId, orderId := Require(fields, "trade_id"), Require(fields, "order_id");
    var accountId, instrumentId := Require(fields, "account_id"), Require(fields, "instrument_id");
    var counterparty, venue := Require(fields, "counterparty_account_id"), Require(fields, "venue");
    var side := Bind(Require(fields, "side"), SideFrom);
    var price, qty := Bind(Require(fields, "price"), codec.parse), Bind(Require(fields, "qty"), IntFrom);
    var timestampNs := Bind(Require(fields, "timestamp_ns"), IntFrom);
    if tradeId.None? || orderId.None? || accountId.None? || instrumentId.None? || counterparty.None? || venue.None?
       || side.None? || price.None? || qty.None? || timestampNs.None? then None
    else Some(Execution(tradeId.value, orderId.value, accountId.value, instrumentId.value, side.value, price.value,
                        qty.value, timestampNs.value, counterparty.value, venue.value))
  }

  function EventFrom(codec: PriceCodec, fields: map<string, string>): Option<Event> {
    match Require(fields, "type")
    case None => None
    case Some(kind) =>
      if kind == "order" then
        match OrderFrom(codec, fields) case None => None case Some(o) => Some(OrderEvent(o))
      else if kind == "execution" then
        match ExecutionFrom(codec, fields) case None => None case Some(x) => Some(ExecutionEvent(x))
      else None
  }

  function Decoded(codec: PriceCodec, json: string): Option<Event> {
    match ParseObject(json) case None => None case Some(fields) => EventFrom(codec, fields)
  }

  method Decode(codec: PriceCodec, json: string) returns (e: Option<Event>)
    ensures e == Decoded(codec, json)
  {
    var parser := new FlatJsonParser(json);
    var fields := parser.ParseObject();
    e := if fields.None? then None else EventFrom(codec, fields.value);
  }

  method EscapeJson(value: string) returns (out: string)
    ensures out == Expand(value, Escapes())
  {
    out := "";
    for i := 0 to |value|
      invariant out == Expand(value[..i], Escapes())
    {
      assert value[..i + 1][..i] == value[..i];
      var c := value[i];
      out := out + (if c == '"' then "\\\"" else if c == '\\' then "\\\\" else if c == '\n' then "\\n" else [c]);
    }
    assert value[..|value|] == value;
  }

  // ------------------------------------------------------------------ round trip

  /** A number that tells apart all the keys that are used. */
  function Mark(key: string): int {
    if key == "" then 0 else |key| * 65536 + key[0] as int
  }

  lemma OrderKeysDistinct(codec: PriceCodec, o: Order)
    ensures KeysDistinct(OrderFields(codec, o))
  {
    var fields := OrderFields(codec, o);
    forall i, j | 0 <= i < j < |fields|
      ensures fields[i].key != fields[j].key
    {
      assert Mark(fields[i].key) != Mark(fields[j].key);
    }
  }

  lemma ExecutionKeysDistinct(codec: PriceCodec, x: Execution)
    ensures KeysDistinct(ExecutionFields(codec, x))
  {
    var fields := ExecutionFields(codec, x);
    forall i, j | 0 <= i < j < |fields|
      ensures fields[i].key != fields[j].key
    {
      assert Mark(fields[i].key) != Mark(fields[j].key);
    }
  }

  /** The keys have neither quotes nor backslashes, so they are written as they are. */
  lemma ShortKeysArePlain()
    ensures PlainKey("type") && PlainKey("side") && PlainKey("price") && PlainKey("qty")
    ensures PlainKey("status") && PlainKey("venue") && PlainKey("order_id") && PlainKey("trade_id")
  {
  }

  lemma LongKeysArePlain()
    ensures PlainKey("account_id") && PlainKey("order_type") && PlainKey("timestamp_ns")
    ensures PlainKey("instrument_id") && PlainKey("orig_order_id")
  {
  }

  lemma LongestKeyIsPlain()
    ensures PlainKey("counterparty_account_id")
  {
  }

  lemma KeysArePlain()
    ensures PlainKey("type") && PlainKey("order_id") && PlainKey("account_id") && PlainKey("instrument_id")
    ensures PlainKey("side") && PlainKey("price") && PlainKey("qty") && PlainKey("order_type")
    ensures PlainKey("timestamp_ns") && PlainKey("status") && PlainKey("venue") && PlainKey("orig_order_id")
    ensures PlainKey("trade_id") && PlainKey("counterparty_account_id")
  {
    hide PlainKey;
    ShortKeysArePlain();
    LongKeysArePlain();
    LongestKeyIsPlain();
  }

  lemma OrderFieldsWellWritten(codec: PriceCodec, o: Order)
    requires Represents(codec, o.price)
    ensures var fields := OrderFields(codec, o);
            forall i :: 0 <= i < |fields| ==> WellWritten(fields[i])
  {
    hide PlainKey, IntText;
    KeysArePlain();
    IntRoundTrip(o.qty);
    IntRoundTrip(o.timestampNs);
  }

  lemma ExecutionFieldsWellWritten(codec: PriceCodec, x: Execution)
    requires Represents(codec, x.price)
    ensures var fields := ExecutionFields(codec, x);
            forall i :: 0 <= i < |fields| ==> WellWritten(fields[i])
  {
    hide PlainKey, IntText;
    KeysArePlain();
    IntRoundTrip(x.qty);
    IntRoundTrip(x.timestampNs);
  }

  /** With distinct keys every field can be required and has the value written. */
  lemma FieldsAreFound(fields: seq<Field>)
    requires KeysDistinct(fields)
    ensures forall i :: 0 <= i < |fields| ==> Require(Collect(fields, map[]), fields[i].key) == Some(fields[i].value)
  {
    forall i | 0 <= i < |fields|
      ensures Require(Collect(fields, map[]), fields[i].key) == Some(fields[i].value)
    {
      CollectLookup(fields, map[], i);
    }
  }

  lemma OrderInverts(codec: PriceCodec, o: Order)
    requires Represents(codec, o.price)
    ensures EventFrom(codec, Collect(OrderFields(codec, o), map[])) == Some(OrderEvent(o))
  {
    hide Collect, Require, IntText, IntFrom, SideText, SideFrom, OrderTypeText, OrderTypeFrom, StatusText, StatusFrom;
    var fields := OrderFields(codec, o);
    OrderKeysDistinct(codec, o);
    FieldsAreFound(fields);
    IntRoundTrip(o.qty);
    IntRoundTrip(o.timestampNs);
    NamesAreExact(SideText(o.side));
    NamesAreExact(OrderTypeText(o.orderType));
    NamesAreExact(StatusText(o.status));
    var m := Collect(fields, map[]);
    assert Require(m, fields[0].key) == Some("order") && Require(m, fields[1].key) == Some(o.orderId);
    assert Require(m, fields[2].key) == Some(o.accountId) && Require(m, fields[3].key) == Some(o.instrumentId);
    assert Require(m, fields[4].key) == Some(SideText(o.side));
    assert Require(m, fields[5].key) == Some(codec.render(o.price));
    assert Require(m, fields[6].key) == Some(IntText(o.qty));
    assert Require(m, fields[7].key) == Some(OrderTypeText(o.orderType));
    assert Require(m, fields[8].key) == Some(IntText(o.timestampNs));
    assert Require(m, fields[9].key) == Some(StatusText(o.status));
    assert Require(m, fields[10].key) == Some(o.venue) && Require(m, fields[11].key) == Some(o.origOrderId);
  }

  lemma ExecutionInverts(codec: PriceCodec, x: Execution)
    requires Represents(codec, x.price)
    ensures EventFrom(codec, Collect(ExecutionFields(codec, x), map[])) == Some(ExecutionEvent(x))
  {
    hide Collect, Require, IntText, IntFrom, SideText, SideFrom;
    var fields := ExecutionFields(codec, x);
    ExecutionKeysDistinct(codec, x);
    FieldsAreFound(fields);
    IntRoundTrip(x.qty);
    IntRoundTrip(x.timestampNs);
    NamesAreExact(SideText(x.side));
    assert "execution"[0] != "order"[0];
    var m := Collect(fields, map[]);
    assert Require(m, fields[0].key) == Some("execution") && Require(m, fields[1].key) == Some(x.tradeId);
    assert Require(m, fields[2].key) == Some(x.orderId) && Require(m, fields[3].key) == Some(x.accountId);
    assert Require(m, fields[4].key) == Some(x.instrumentId) && Require(m, fields[5].key) == Some(SideText(x.side));
    assert Require(m, fields[6].key) == Some(codec.render(x.price)) && Require(m, fields[7].key) == Some(IntText(x.qty));
    assert Require(m, fields[8].key) == Some(IntText(x.timestampNs));
    assert Require(m, fields[9].key) == Some(x.counterpartyAccountId) && Require(m, fields[10].key) == Some(x.venue);
  }

  /** Every event survives the topic, whatever characters its strings hold, if its price survives printing. */
  lemma RoundTrip(codec: PriceCodec, e: Event)
    requires Represents(codec, if e.OrderEvent? then e.order.price else e.execution.price)
    ensures Decoded(codec, Encode(codec, e)) == Some(e)
  {
    hide OrderFields, ExecutionFields, ParseObject, ObjectText, EventFrom, Represents, WellWritten, Collect;
    match e {
      case OrderEvent(o) =>
        OrderFieldsWellWritten(codec, o);
        OrderInverts(codec, o);
      case ExecutionEvent(x) =>
        ExecutionFieldsWellWritten(codec, x);
        ExecutionInverts(codec, x);
    }
    ObjectInverts(FieldsOf(codec, e));
  }
}
