/** The message envelope and its passage through JSON text. */
module Envelope {
  import opened Common
  import opened Framing

  datatype Json =
    | Null
    | Bool(b: bool)
    | Int(n: int)
    | Real(x: real)
    | Str(s: string)
    | Arr(items: seq<Json>)
    | Obj(fields: map<string, Json>)

  datatype MessageType =
    | HELLO | HELLO_ACK | HEARTBEAT | HEARTBEAT_ACK
    | ACCOUNT_STATE | MARKET_STATE | POSITION_STATE | ORDER_STATE
    | EXECUTE_REQUEST | EXECUTE_RESPONSE | CANCEL_REQUEST | CANCEL_RESPONSE
    | RECONCILE_REQUEST | RECONCILE_RESPONSE
    | ERROR | GOODBYE | INCOMPATIBLE_VERSION

  function TypeValue(t: MessageType): string {
    match t
    case HELLO => "HELLO" case HELLO_ACK => "HELLO_ACK"
    case HEARTBEAT => "HEARTBEAT" case HEARTBEAT_ACK => "HEARTBEAT_ACK"
    case ACCOUNT_STATE => "ACCOUNT_STATE" case MARKET_STATE => "MARKET_STATE"
    case POSITION_STATE => "POSITION_STATE" case ORDER_STATE => "ORDER_STATE"
    case EXECUTE_REQUEST => "EXECUTE_REQUEST" case EXECUTE_RESPONSE => "EXECUTE_RESPONSE"
    case CANCEL_REQUEST => "CANCEL_REQUEST" case CANCEL_RESPONSE => "CANCEL_RESPONSE"
    case RECONCILE_REQUEST => "RECONCILE_REQUEST" case RECONCILE_RESPONSE => "RECONCILE_RESPONSE"
    case ERROR => "ERROR" case GOODBYE => "GOODBYE" case INCOMPATIBLE_VERSION => "INCOMPATIBLE_VERSION"
  }

  /** `MessageType(value)`: the member whose value this is, if any. */
  function TypeOfValue(value: string): Option<MessageType> {
    if LinkType(value).Some? then LinkType(value)
    else if StateType(value).Some? then StateType(value)
    else OrderType(value)
  }

  function LinkType(value: string): Option<MessageType> {
    if value == "HELLO" then Some(HELLO) else
    if value == "HELLO_ACK" then Some(HELLO_ACK) else
    if value == "HEARTBEAT" then Some(HEARTBEAT) else
    if value == "HEARTBEAT_ACK" then Some(HEARTBEAT_ACK) else
    if value == "ERROR" then Some(ERROR) else
    if value == "GOODBYE" then Some(GOODBYE) else
    if value == "INCOMPATIBLE_VERSION" then Some(INCOMPATIBLE_VERSION) else
    None
  }

  function StateType(value: string): Option<MessageType> {
    if value == "ACCOUNT_STATE" then Some(ACCOUNT_STATE) else
    if value == "MARKET_STATE" then Some(MARKET_STATE) else
    if value == "POSITION_STATE" then Some(POSITION_STATE) else
    if value == "ORDER_STATE" then Some(ORDER_STATE) else
    None
  }

  function OrderType(value: string): Option<MessageType> {
    if value == "EXECUTE_REQUEST" then Some(EXECUTE_REQUEST) else
    if value == "EXECUTE_RESPONSE" then Some(EXECUTE_RESPONSE) else
    if value == "CANCEL_REQUEST" then Some(CANCEL_REQUEST) else
    if value == "CANCEL_RESPONSE" then Some(CANCEL_RESPONSE) else
    if value == "RECONCILE_REQUEST" then Some(RECONCILE_REQUEST) else
    if value == "RECONCILE_RESPONSE" then Some(RECONCILE_RESPONSE) else
    None
  }

  /** `correlation_id` is passed through unconverted, so it is any JSON value; `Null` is Python's None. */
  datatype Message = Message(
    protocolVersion: string,
    messageType: MessageType,
    requestId: string,
    timestamp: string,
    source: string,
    destination: string,
    payload: map<string, Json>,
    correlationId: Json,
    sequence: int)

  /** What decoding a body yields. A ValueError is reported as a ProtocolError; a TypeError is not caught. */
  datatype Outcome<+T> = Good(value: T) | ValueError | TypeError {
    predicate IsFailure() { !Good? }
    function PropagateFailure<U>(): Outcome<U> requires !Good? { if ValueError? then ValueError else TypeError }
    function Extract(): T requires Good? { value }
  }

  /** The library behaviour the envelope relies on: the JSON text layer, and Python's `str(x)`, `int(text)`
      and `dict(list)` on the values this code may hand them. */
  datatype Python = Python(
    dumps: Json -> Bytes,
    loads: Bytes -> Option<Json>,
    str: Json -> string,
    parseInt: string -> Option<int>,
    pairs: seq<Json> -> Outcome<map<string, Json>>)

  /** Python truth of a JSON value: `x or default` takes the default when this is false. */
  predicate Truthy(j: Json) {
    match j
    case Null => false
    case Bool(b) => b
    case Int(n) => n != 0
    case Real(x) => x != 0.0
    case Str(s) => s != ""
    case Arr(items) => items != []
    case Obj(fields) => fields != map[]
  }

  function Get(fields: map<string, Json>, key: string): Json {
    if key in fields then fields[key] else Null
  }

  /** `str(data.get(key) or "")` */
  function AsText(py: Python, j: Json): string {
    if !Truthy(j) then "" else if j.Str? then j.s else py.str(j)
  }

  function Truncate(x: real): int {
    if x >= 0.0 then x.Floor else -(-x).Floor
  }

  /** `int(data.get(key) or 0)` */
  function AsInt(py: Python, j: Json): Outcome<int> {
    if !Truthy(j) then Good(0)
    else match j
      case Int(n) => Good(n)
      case Bool(_) => Good(1)
      case Real(x) => Good(Truncate(x))
      case Str(s) => (match py.parseInt(s) case Some(n) => Good(n) case None => ValueError)
      case _ => TypeError
  }

  /** `dict(data.get(key) or {})` */
  function AsDict(py: Python, j: Json): Outcome<map<string, Json>> {
    if !Truthy(j) then Good(map[])
    else match j
      case Obj(fields) => Good(fields)
      case Arr(items) => py.pairs(items)
      case Str(_) => ValueError
      case _ => TypeError
  }

  function ToDict(m: Message): map<string, Json> {
    map[
      "protocol_version" := Str(m.protocolVersion),
      "message_type" := Str(TypeValue(m.messageType)),
      "request_id" := Str(m.requestId),
      "correlation_id" := m.correlationId,
      "timestamp" := Str(m.timestamp),
      "source" := Str(m.source),
      "destination" := Str(m.destination),
      "sequence" := Int(m.sequence),
      "payload" := Obj(m.payload)]
  }

  function FromDict(py: Python, data: Json): Outcome<Message> {
    if !data.Obj? then ValueError
    else
      var mt := Get(data.fields, "message_type");
      if !mt.Str? || TypeOfValue(mt.s).None? then ValueError
      else
        var sequence :- AsInt(py, Get(data.fields, "sequence"));
        var payload :- AsDict(py, Get(data.fields, "payload"));
        Good(Message(
          AsText(py, Get(data.fields, "protocol_version")),
          TypeOfValue(mt.s).value,
          AsText(py, Get(data.fields, "request_id")),
          AsText(py, Get(data.fields, "timestamp")),
          AsText(py, Get(data.fields, "source")),
          AsText(py, Get(data.fields, "destination")),
          payload,
          Get(data.fields, "correlation_id"),
          sequence))
  }

  function Encode(py: Python, m: Message): Bytes {
    py.dumps(Obj(ToDict(m)))
  }

  function Decode(py: Python, body: Bytes): Outcome<Message> {
    match py.loads(body)
    case None => ValueError
    case Some(data) => FromDict(py, data)
  }

  /** The seventeen type names are distinct, so each names its own type again. */
  lemma TypeNamesAreDistinct(t: MessageType)
    ensures TypeOfValue(TypeValue(t)) == Some(t)
  {
  }

  lemma FieldsOfDict(m: Message)
    ensures var d := ToDict(m);
            && Get(d, "protocol_version") == Str(m.protocolVersion)
            && Get(d, "message_type") == Str(TypeValue(m.messageType))
            && Get(d, "request_id") == Str(m.requestId)
            && Get(d, "correlation_id") == m.correlationId
            && Get(d, "timestamp") == Str(m.timestamp)
            && Get(d, "source") == Str(m.source)
            && Get(d, "destination") == Str(m.destination)
            && Get(d, "sequence") == Int(m.sequence)
            && Get(d, "payload") == Obj(m.payload)
  {
  }

  /** Every message survives its envelope: no field is lost or defaulted, whatever the payload holds. */
  lemma EnvelopeRoundTrip(py: Python, m: Message)
    ensures FromDict(py, Obj(ToDict(m))) == Good(m)
  {
    TypeNamesAreDistinct(m.messageType);
    FieldsOfDict(m);
    var d := ToDict(m);
    assert FromDict(py, Obj(d)).Good?;
  }

  /** Which dictionaries are messages: those whose type is one of the seventeen names and whose sequence and payload
      can be converted. Nothing else is asked, and a ValueError is what any other type, or no dictionary at all,
      meets. */
  lemma AcceptedExactly(py: Python, data: Json)
    ensures FromDict(py, data).Good? <==>
            && data.Obj?
            && (exists t :: Get(data.fields, "message_type") == Str(TypeValue(t)))
            && AsInt(py, Get(data.fields, "sequence")).Good?
            && AsDict(py, Get(data.fields, "payload")).Good?
    ensures !data.Obj? || (forall t :: Get(data.fields, "message_type") != Str(TypeValue(t))) ==>
              FromDict(py, data).ValueError?
  {
    hide AsInt, AsDict, TypeValue, TypeOfValue;
    if data.Obj? && Get(data.fields, "message_type").Str? {
      NamesExactly(Get(data.fields, "message_type").s);
    }
  }

  lemma NamesExactly(value: string)
    ensures TypeOfValue(value).Some? <==> exists t :: TypeValue(t) == value
    ensures TypeOfValue(value).Some? ==> TypeValue(TypeOfValue(value).value) == value
  {
    hide TypeOfValue, TypeValue;
    if TypeOfValue(value).Some? {
      NameOfType(value);
    }
    if t :| TypeValue(t) == value {
      TypeNamesAreDistinct(t);
    }
  }

  lemma NameOfType(value: string)
    requires TypeOfValue(value).Some?
    ensures TypeValue(TypeOfValue(value).value) == value
  {
    hide LinkType, StateType, OrderType, TypeValue;
    if LinkType(value).Some? {
      NameOfLink(value);
    } else if StateType(value).Some? {
      NameOfState(value);
    } else {
      NameOfOrder(value);
    }
  }

  lemma NameOfLink(value: string)
    requires LinkType(value).Some?
    ensures TypeValue(LinkType(value).value) == value
  {
  }

  lemma NameOfState(value: string)
    requires StateType(value).Some?
    ensures TypeValue(StateType(value).value) == value
  {
  }

  lemma NameOfOrder(value: string)
    requires OrderType(value).Some?
    ensures TypeValue(OrderType(value).value) == value
  {
  }

  /** A dictionary with a type and nothing else is a message: every missing field takes its default. */
  lemma MissingFieldsDefault(py: Python, t: MessageType)
    ensures FromDict(py, Obj(map["message_type" := Str(TypeValue(t))])) ==
            Good(Message("", t, "", "", "", "", map[], Null, 0))
  {
    TypeNamesAreDistinct(t);
    hide TypeValue, TypeOfValue;
    var d := map["message_type" := Str(TypeValue(t))];
    assert Get(d, "message_type") == Str(TypeValue(t));
    assert FromDict(py, Obj(d)).Good?;
  }

  /** What counts as missing in a field: null, false, zero, and an empty text, list or object; anything else is
      converted. */
  lemma FalsyExactly(py: Python, j: Json)
    ensures !Truthy(j) <==>
            || j == Null || j == Bool(false) || j == Int(0) || j == Real(0.0)
            || j == Str("") || j == Arr([]) || j == Obj(map[])
    ensures !Truthy(j) ==> AsText(py, j) == "" && AsInt(py, j) == Good(0) && AsDict(py, j) == Good(map[])
    ensures j.Str? ==> AsText(py, j) == j.s
    ensures j.Int? ==> AsInt(py, j) == Good(j.n)
    ensures j.Obj? ==> AsDict(py, j) == Good(j.fields)
  {
  }

  /** A sequence number that is no integer is cut off towards zero. */
  lemma TruncatesTowardsZero(x: real)
    ensures x >= 0.0 ==> Truncate(x) as real <= x < Truncate(x) as real + 1.0
    ensures x <= 0.0 ==> Truncate(x) as real - 1.0 < x <= Truncate(x) as real
  {
  }

  /** All that is asked of the text layer, and only of the message in hand: what `dumps` writes for it, `loads` reads
      back. Python's does so for every payload of strings, integers, finite floats, lists and string-keyed dicts. */
  predicate ReadsBack(py: Python, m: Message) {
    py.loads(Encode(py, m)) == Some(Obj(ToDict(m)))
  }

  lemma CodecRoundTrip(py: Python, m: Message)
    requires ReadsBack(py, m)
    ensures Decode(py, Encode(py, m)) == Good(m)
  {
    EnvelopeRoundTrip(py, m);
  }

  function IndexOf(texts: seq<Json>, j: Json): (i: nat)
    ensures j in texts ==> i < |texts| && texts[i] == j
  {
    if texts == [] || texts[0] == j then 0 else 1 + IndexOf(texts[1..], j)
  }

  /** Nothing impossible is asked: for any messages there is a text layer that reads every one of them back. */
  lemma CodecFor(messages: seq<Message>) returns (py: Python)
    ensures forall m :: m in messages ==> ReadsBack(py, m)
  {
    var texts := seq(|messages|, i requires 0 <= i < |messages| => Obj(ToDict(messages[i])));
    py := Python(
      j => seq(IndexOf(texts, j), _ => 0),
      text => if |text| < |texts| then Some(texts[|text|]) else None,
      j => "",
      text => None,
      items => ValueError);
    forall m | m in messages ensures ReadsBack(py, m) {
      var i :| 0 <= i < |messages| && messages[i] == m;
      assert texts[i] == Obj(ToDict(m));
    }
  }
}
