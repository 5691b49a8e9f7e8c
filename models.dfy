/**
 * The XML base model and the record schemas.  A record is decoded from the
 * parsed document: its declared root element is stripped, each field is
 * read under its camelCase alias, and a few fields run a custom decoder
 * first (the `entry` strippers and the hashmap flattener).
 */
module Models {
  import opened Wrappers
  import opened Text
  import opened XmlTree
  import opened Camel
  import opened XmlMaps

  // ---------------------------------------------------------------------
  // The XML base model

  /**
   * `strip_xml_root`: the value under the declared root element when the
   * model declares one and the mapping has it; the mapping itself otherwise.
   */
  function StripXmlRoot(rootElement: string, value: seq<(string, Xml)>): (r: Xml)
    ensures rootElement != "" && HasKey(value, rootElement) ==>
      exists i :: 0 <= i < |value| && value[i] == (rootElement, r)
    ensures rootElement == "" || !HasKey(value, rootElement) ==> r == Dict(value)
  {
    if rootElement != "" && HasKey(value, rootElement) then Lookup(value, rootElement) else Dict(value)
  }

  /** The element `xml()` wraps a record in: the declared root, or else the class name. */
  function EnvelopeName(rootElement: string, className: string): string {
    if rootElement != "" then rootElement else className
  }

  /** The mapping `xml()` hands to the serialiser: the record's fields under one envelope key. */
  function XmlEnvelope(rootElement: string, className: string, body: Xml): (doc: seq<(string, Xml)>)
    ensures |doc| == 1 && doc[0].1 == body
    ensures rootElement != "" ==> doc[0].0 == rootElement
    ensures rootElement == "" ==> doc[0].0 == className
  {
    [(EnvelopeName(rootElement, className), body)]
  }

  /** Serialising under a declared root and parsing back strips exactly that envelope. */
  lemma EnvelopeRoundTrip(rootElement: string, className: string, body: Xml)
    requires rootElement != ""
    ensures StripXmlRoot(rootElement, XmlEnvelope(rootElement, className, body)) == body
  {
    var doc := XmlEnvelope(rootElement, className, body);
    assert doc[0].0 == rootElement;
    LookupAt(doc, 0);
  }

  /** Without a declared root the class-name envelope is kept by the parser side. */
  lemma ClassNameEnvelopeKept(className: string, body: Xml)
    ensures StripXmlRoot("", XmlEnvelope("", className, body)) == Dict([(className, body)])
  {
  }

  /** Which parser `parse_raw` hands the payload to. */
  datatype ParseRoute =
    | XmlRoute(parserEncoding: string)   // the XML parser, with this encoding
    | DefaultRoute                       // the base model's own `parse_raw`, arguments unchanged

  /**
   * `parse_raw`'s dispatch: the XML parser exactly when a non-empty content
   * type ending in `xml` is given, with `utf8` spelled `utf-8` for it.
   */
  function ChooseParseRoute(contentType: Option<string>, encoding: string): (r: ParseRoute)
    ensures r.XmlRoute? <==> contentType.Some? && contentType.value != "" && EndsWith(contentType.value, "xml")
    ensures r.XmlRoute? && encoding == "utf8" ==> r.parserEncoding == "utf-8"
    ensures r.XmlRoute? && encoding != "utf8" ==> r.parserEncoding == encoding
  {
    if contentType.Some? && contentType.value != "" && EndsWith(contentType.value, "xml") then
      XmlRoute(if encoding == "utf8" then "utf-8" else encoding)
    else DefaultRoute
  }

  /** The suffix test is case-sensitive and the default content type is not XML. */
  lemma ParseRouteExamples()
    ensures ChooseParseRoute(Some("application/xml"), "utf8") == XmlRoute("utf-8")
    ensures ChooseParseRoute(Some("text/xml"), "latin-1") == XmlRoute("latin-1")
    ensures ChooseParseRoute(Some("application/XML"), "utf8") == DefaultRoute
    ensures ChooseParseRoute(Some("application/json"), "utf8") == DefaultRoute
    ensures ChooseParseRoute(None, "utf8") == DefaultRoute
  {
    assert "application/xml"[12..] == "xml";
    assert "text/xml"[5..] == "xml";
    assert "application/XML"[12..] != "xml";
    assert "application/json"[13..] != "xml";
  }

  // ---------------------------------------------------------------------
  // Field decoders

  /** Failures of the per-field decoders, reported as validation errors. */
  datatype FieldError =
    | FieldMissing(alias: string)  // the field's alias is not in the record's mapping
    | EntryNotIterable             // `"entry" in None`
    | EntryIndexInvalid            // `value["entry"]` on a string or a list
    | MapEncoding(e: MapError)     // the hashmap flattener refused the value

  /**
   * The `entry` strippers of `metaDataMap` and `connectorMessages`: the value
   * under `entry` when the mapping has one, the value untouched otherwise.
   * Python's `in` is a substring test on a string and a membership test on a
   * list; a positive answer there makes the lookup fail.
   */
  function StripEntryRoot(value: Xml): (r: Result<Xml, FieldError>)
    ensures value.Dict? && HasKey(value.entries, "entry") ==> r == Success(Lookup(value.entries, "entry"))
    ensures value.Dict? && !HasKey(value.entries, "entry") ==> r == Success(value)
    ensures value.Text? ==> r == if Contains(value.s, "entry") then Failure(EntryIndexInvalid) else Success(value)
    ensures value.XList? ==> r == if Text("entry") in value.items then Failure(EntryIndexInvalid) else Success(value)
    ensures value.Null? ==> r == Failure(EntryNotIterable)
  {
    match value
    case Null => Failure(EntryNotIterable)
    case Text(s) => if Contains(s, "entry") then Failure(EntryIndexInvalid) else Success(value)
    case XList(items) => if Text("entry") in items then Failure(EntryIndexInvalid) else Success(value)
    case Dict(entries) => if HasKey(entries, "entry") then Success(Lookup(entries, "entry")) else Success(value)
  }

  /**
   * The `metaDataMap` field: the `entry` wrapper is stripped and the rest is
   * flattened to a dict; this is the only field that is flattened.
   */
  function DecodeMetaDataMap(value: Xml): (r: Result<map<Xml, Xml>, FieldError>)
    ensures StripEntryRoot(value).Failure? ==> r == Failure(StripEntryRoot(value).error)
    ensures StripEntryRoot(value).Success? ==>
      match FlattenMap(StripEntryRoot(value).value)
      case Success(m) => r == Success(m)
      case Failure(e) => r == Failure(MapEncoding(e))
  {
    match StripEntryRoot(value)
    case Failure(e) => Failure(e)
    case Success(inner) =>
      match FlattenMap(inner)
      case Success(m) => Success(m)
      case Failure(e) => Failure(MapEncoding(e))
  }

  /**
   * A field read from a record's mapping under its generated alias.  An
   * absent field declared `Optional` takes its default `None`; an absent
   * required field is an error.
   */
  function FieldValue(record: seq<(string, Xml)>, field: string, optional: bool): (r: Result<Xml, FieldError>)
    ensures r.Failure? <==> !optional && !HasKey(record, ToCamel(field))
    ensures r.Failure? ==> r.error == FieldMissing(ToCamel(field))
    ensures r.Success? && HasKey(record, ToCamel(field)) ==>
      exists i :: 0 <= i < |record| && record[i] == (ToCamel(field), r.value)
    ensures r.Success? && !HasKey(record, ToCamel(field)) ==> r.value == Null
  {
    var alias := ToCamel(field);
    if HasKey(record, alias) then Success(Lookup(record, alias))
    else if optional then Success(Null)
    else Failure(FieldMissing(alias))
  }

  /**
   * A record holding one field, read for another one (a login response
   * holding only `status`, read for `message`): the absent field is `None`
   * when it is optional and an error when it is required, while the present
   * field is read as stored.
   */
  lemma AbsentFieldDefaults(present: string, value: string, absent: string)
    requires '_' !in present && '_' !in absent && present != absent
    ensures FieldValue([(present, Text(value))], absent, true) == Success(Null)
    ensures FieldValue([(present, Text(value))], absent, false) == Failure(FieldMissing(absent))
    ensures FieldValue([(present, Text(value))], present, false) == Success(Text(value))
  {
    ToCamelShape(present);
    ToCamelShape(absent);
    assert [(present, Text(value))][0].0 == present;
  }

  /**
   * A login status document that holds only `status`: once its root element
   * is stripped, `status` is read as stored and the two optional fields are
   * `None`.
   */
  lemma LoginStatusWithStatusOnly(value: string, field: string)
    requires field in LoginResponseFields
    ensures var body := StripXmlRoot(LoginStatusRoot, [(LoginStatusRoot, Dict([("status", Text(value))]))]);
      && body == Dict([("status", Text(value))])
      && FieldValue(body.entries, field, field in LoginResponseOptional) ==
        if field == "status" then Success(Text(value)) else Success(Null)
  {
    assert [(LoginStatusRoot, Dict([("status", Text(value))]))][0].0 == LoginStatusRoot;
    var record := [("status", Text(value))];
    assert record[0].0 == "status";
    LoginResponseAlias(field);
    assert HasKey(record, ToCamel(field)) <==> field == "status";
  }

  /** Of the login response's fields, only `status` is read under the alias `status`. */
  lemma LoginResponseAlias(field: string)
    requires field in LoginResponseFields
    ensures ToCamel(field) == "status" <==> field == "status"
    ensures field != "status" <==> field in LoginResponseOptional
  {
    if field == "status" {
      StatusAlias(field);
    } else {
      OptionalLoginAlias(field);
    }
  }

  lemma StatusAlias(field: string)
    requires field == "status"
    ensures ToCamel(field) == "status"
  {
    ToCamelShape(field);
  }

  lemma OptionalLoginAlias(field: string)
    requires field in LoginResponseFields && field != "status"
    ensures ToCamel(field) != "status"
  {
    if field == "message" {
      ToCamelShape(field);
    } else {
      ToCamelKeepsFirstPiece(field, 1);
    }
  }

  /**
   * The sample wire shapes of `metaDataMap`: one entry, several entries, an
   * entry mapping without tags, an empty `<entry/>` (read as `Null`), and an
   * empty field.
   */
  lemma MetaDataMapShapes(k1: string, v1: string, k2: string, v2: string)
    ensures DecodeMetaDataMap(Dict([("entry", Dict([("string", XList([Text(k1), Text(v1)]))]))]))
      == Success(map[Text(k1) := Text(v1)])
    ensures DecodeMetaDataMap(Dict([("entry", XList([
        Dict([("string", XList([Text(k1), Text(v1)]))]),
        Dict([("string", XList([Text(k2), Text(v2)]))])]))]))
      == Success(map[Text(k1) := Text(v1), Text(k2) := Text(v2)])
    ensures DecodeMetaDataMap(Dict([("entry", Dict([]))])) == Failure(MapEncoding(NoStringKey))
    ensures DecodeMetaDataMap(Dict([("entry", Null)])) == Failure(MapEncoding(NotAnOrderedDict))
    ensures DecodeMetaDataMap(Null) == Failure(EntryNotIterable)
  {
    var one := Dict([("string", XList([Text(k1), Text(v1)]))]);
    var two := Dict([("string", XList([Text(k2), Text(v2)]))]);
    assert [("entry", one)][0].0 == "entry";
    assert [("string", XList([Text(k1), Text(v1)]))][0].0 == "string";
    assert [("string", XList([Text(k2), Text(v2)]))][0].0 == "string";
    var items := [one, two];
    assert items[..1] == [one];
    assert [one][..0] == [];
    assert MapItemToDict(one) == Success(map[Text(k1) := Text(v1)]);
    assert MapItemToDict(two) == Success(map[Text(k2) := Text(v2)]);
    assert FlattenItems([one][..0]) == Success(map[]);
    assert map[] + map[Text(k1) := Text(v1)] == map[Text(k1) := Text(v1)];
    assert FlattenItems([one]) == Success(map[Text(k1) := Text(v1)]);
    assert FlattenItems(items) == Success(map[Text(k1) := Text(v1)] + map[Text(k2) := Text(v2)]);
    var several := XList(items);
    assert [("entry", several)][0].0 == "entry";
    assert StripEntryRoot(Dict([("entry", several)])) == Success(several);
    assert map[Text(k1) := Text(v1)] + map[Text(k2) := Text(v2)] == map[Text(k1) := Text(v1), Text(k2) := Text(v2)];
    assert [("entry", Dict([]))][0].0 == "entry";
    assert [("entry", Null)][0].0 == "entry";
  }

  // ---------------------------------------------------------------------
  // Record schemas (the fields each model declares)

  /** A UUID in its textual form; its validity check is the model library's. */
  datatype Uuid = Uuid(text: string)

  /** A point in time, as the model library decodes it. */
  datatype Instant = Instant(text: string)

  datatype ChannelModel = ChannelModel(id: string, name: string, description: Option<string>, revision: string)

  datatype ChannelList = ChannelList(channel: seq<ChannelModel>)

  datatype LoginResponse = LoginResponse(status: string, message: Option<string>, updatedUsername: Option<string>)

  /** `attributes` stays the raw parsed mapping: it is not flattened. */
  datatype EventModel = EventModel(
    id: int, level: string, name: string, outcome: string,
    attributes: seq<(string, Xml)>,
    userId: Option<string>, ipAddress: Option<string>, dateTime: Instant)

  datatype EventList = EventList(event: seq<EventModel>)

  datatype ChannelStatistics = ChannelStatistics(
    serverId: Uuid, channelId: Uuid,
    received: int, sent: int, error: int, filtered: int, queued: int)

  datatype ConnectorMessageData = ConnectorMessageData(
    channelId: Uuid, content: Option<string>, contentType: string, dataType: Option<string>,
    encrypted: bool, messageId: string, messageDataId: Option<string>)

  /** Each pipeline stage's payload is optional: a stage not reached is `None`. */
  datatype ConnectorMessageModel = ConnectorMessageModel(
    chainId: int, orderId: int, serverId: Uuid, channelId: string,
    channelName: string, connectorName: string,
    messageId: string, errorCode: int, sendAttempts: int,
    raw: Option<ConnectorMessageData>, encoded: Option<ConnectorMessageData>,
    sent: Option<ConnectorMessageData>, response: Option<ConnectorMessageData>,
    metaDataMap: map<Xml, Xml>)

  /** The connector messages are a list in this version of the models. */
  datatype ChannelMessageModel = ChannelMessageModel(
    messageId: int, serverId: Uuid, channelId: Uuid, processed: bool,
    connectorMessages: seq<ConnectorMessageModel>)

  datatype ChannelMessageList = ChannelMessageList(message: seq<ChannelMessageModel>)

  /** The declared root element of the login response model. */
  const LoginStatusRoot := "com.mirth.connect.model.LoginStatus"

  /** Declared field names, in declaration order. */
  const ChannelFields := ["id", "name", "description", "revision"]
  const LoginResponseFields := ["status", "message", "updated_username"]
  const EventFields := ["id", "level", "name", "outcome", "attributes", "user_id", "ip_address", "date_time"]
  const ChannelStatisticsFields := ["server_id", "channel_id", "received", "sent", "error", "filtered", "queued"]
  const ConnectorMessageDataFields :=
    ["channel_id", "content", "content_type", "data_type", "encrypted", "message_id", "message_data_id"]
  const ConnectorMessageFields := [
    "chain_id", "order_id", "server_id", "channel_id", "channel_name", "connector_name",
    "message_id", "error_code", "send_attempts", "raw", "encoded", "sent", "response", "meta_data_map"]
  const ChannelMessageFields := ["message_id", "server_id", "channel_id", "processed", "connector_messages"]

  /** The fields the login response model declares `Optional`. */
  const LoginResponseOptional := {"message", "updated_username"}

  /** The alias table of a model: each declared field's generated wire name. */
  function Aliases(fields: seq<string>): (aliases: seq<string>)
    ensures |aliases| == |fields|
    ensures forall i :: 0 <= i < |fields| ==> aliases[i] == ToCamel(fields[i])
  {
    if fields == [] then [] else [ToCamel(fields[0])] + Aliases(fields[1..])
  }

  /** No two declared fields of one table are read from the same element. */
  predicate DistinctAliases(fields: seq<string>) {
    forall i, j :: 0 <= i < j < |fields| ==> Aliases(fields)[i] != Aliases(fields)[j]
  }

  /** Distinct field names written in snake case always get distinct aliases. */
  lemma {:induction false} SnakeFieldsHaveDistinctAliases(fields: seq<string>)
    requires forall i :: 0 <= i < |fields| ==> IsSnakeName(fields[i])
    requires forall i, j :: 0 <= i < j < |fields| ==> fields[i] != fields[j]
    ensures DistinctAliases(fields)
  {
    forall i, j | 0 <= i < j < |fields| ensures Aliases(fields)[i] != Aliases(fields)[j] {
      ToCamelInjective(fields[i], fields[j]);
    }
  }

  // Each model's alias table is collision-free.

  lemma ChannelAliasesDistinct()
    ensures DistinctAliases(ChannelFields)
  {
    SnakeFieldsHaveDistinctAliases(ChannelFields);
  }

  lemma LoginResponseAliasesDistinct()
    ensures DistinctAliases(LoginResponseFields)
  {
    SnakeFieldsHaveDistinctAliases(LoginResponseFields);
  }

  lemma EventAliasesDistinct()
    ensures DistinctAliases(EventFields)
  {
    SnakeFieldsHaveDistinctAliases(EventFields);
  }

  lemma ChannelStatisticsAliasesDistinct()
    ensures DistinctAliases(ChannelStatisticsFields)
  {
    SnakeFieldsHaveDistinctAliases(ChannelStatisticsFields);
  }

  lemma ConnectorMessageDataAliasesDistinct()
    ensures DistinctAliases(ConnectorMessageDataFields)
  {
    SnakeFieldsHaveDistinctAliases(ConnectorMessageDataFields);
  }

  lemma ConnectorMessageAliasesDistinct()
    ensures DistinctAliases(ConnectorMessageFields)
  {
    ConnectorMessageFieldsSnake();
    ConnectorMessageFieldsDistinct();
    SnakeFieldsHaveDistinctAliases(ConnectorMessageFields);
  }

  lemma ConnectorMessageFieldsSnake()
    ensures forall i :: 0 <= i < |ConnectorMessageFields| ==> IsSnakeName(ConnectorMessageFields[i])
  {
    ConnectorMessageFrontSnake();
    ConnectorMessageBackSnake();
  }

  lemma ConnectorMessageFrontSnake()
    ensures forall i :: 0 <= i < 7 ==> IsSnakeName(ConnectorMessageFields[i])
  {
  }

  lemma ConnectorMessageBackSnake()
    ensures forall i :: 7 <= i < |ConnectorMessageFields| ==> IsSnakeName(ConnectorMessageFields[i])
  {
  }

  lemma ConnectorMessageFieldsDistinct()
    ensures forall i, j :: 0 <= i < j < |ConnectorMessageFields| ==> ConnectorMessageFields[i] != ConnectorMessageFields[j]
  {
  }

  lemma ChannelMessageAliasesDistinct()
    ensures DistinctAliases(ChannelMessageFields)
  {
    SnakeFieldsHaveDistinctAliases(ChannelMessageFields);
  }
}
