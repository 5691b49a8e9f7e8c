/**
 * The pure and local-state parts of the channel client: the outbound
 * message builder, the post-error rule, the post-path choice and the
 * query-parameter builders.
 */
module Channels {
  import opened Wrappers
  import opened Text
  import opened XmlTree
  import opened Camel
  import opened XmlMaps
  import opened Models

  // ---------------------------------------------------------------------
  // Booleans in query strings and message text

  /** `QUERY_MAP`; `str(b).lower()` spells a bool the same way. */
  function QueryMap(b: bool): (s: string)
    ensures ParseFlag(s) == Some(b)
    ensures '&' !in s && '=' !in s
  {
    if b then "true" else "false"
  }

  /** Reading a flag back. */
  function ParseFlag(s: string): Option<bool> {
    if s == "true" then Some(true) else if s == "false" then Some(false) else None
  }

  // ---------------------------------------------------------------------
  // build_channel_message

  const RawMessageTag := "com.mirth.connect.donkey.model.message.RawMessage"

  function Leaf(tag: string, text: string): Element {
    Element(tag, Some(text), [])
  }

  /** One source-map item: an `entry` with the key's and then the value's `string` element. */
  function EntryElement(item: (string, string)): Element {
    Element("entry", None, [Leaf("string", item.0), Leaf("string", item.1)])
  }

  function EntryElements(sourceMap: seq<(string, string)>): (es: seq<Element>)
    ensures |es| == |sourceMap|
    ensures forall i :: 0 <= i < |sourceMap| ==> es[i] == EntryElement(sourceMap[i])
  {
    if sourceMap == [] then [] else [EntryElement(sourceMap[0])] + EntryElements(sourceMap[1..])
  }

  /** Python truthiness of an optional string: present and non-empty. */
  predicate StringTruthy(s: Option<string>) {
    s.Some? && s.value != ""
  }

  /** Python truthiness of an optional dict: present and non-empty. */
  predicate MapTruthy(m: Option<seq<(string, string)>>) {
    m.Some? && |m.value| > 0
  }

  function Tags(es: seq<Element>): (ts: seq<string>)
    ensures |ts| == |es|
    ensures forall i :: 0 <= i < |es| ==> ts[i] == es[i].tag
  {
    if es == [] then [] else [es[0].tag] + Tags(es[1..])
  }

  /**
   * The children of a built `RawMessage` element: the `binary` flag, then
   * `rawData` when it is a non-empty string, then `sourceMap` when it is a
   * non-empty dict, one `entry` per item.
   */
  function MessageChildren(rawData: Option<string>, binary: bool, sourceMap: Option<seq<(string, string)>>)
    : (cs: seq<Element>)
    ensures Tags(cs) ==
      ["binary"] + (if StringTruthy(rawData) then ["rawData"] else []) + (if MapTruthy(sourceMap) then ["sourceMap"] else [])
  {
    [Leaf("binary", QueryMap(binary))]
      + (if StringTruthy(rawData) then [Leaf("rawData", rawData.value)] else [])
      + (if MapTruthy(sourceMap) then [Element("sourceMap", None, EntryElements(sourceMap.value))] else [])
  }

  /**
   * `build_channel_message`, up to the element tree handed to the serialiser.
   * `sourceMap` is the dict's items in iteration order.
   */
  method BuildChannelMessage(rawData: Option<string>, binary: bool, sourceMap: Option<seq<(string, string)>>)
    returns (root: Element)
    ensures root == Element(RawMessageTag, None, MessageChildren(rawData, binary, sourceMap))
    ensures ReadRawMessage(root) ==
      Some(RawMessageParts(binary, if StringTruthy(rawData) then rawData else None,
                           if sourceMap.Some? then sourceMap.value else []))
  {
    var children := [Leaf("binary", QueryMap(binary))];
    if rawData.Some? && rawData.value != "" {
      children := children + [Leaf("rawData", rawData.value)];
    }
    if sourceMap.Some? && |sourceMap.value| > 0 {
      var items := sourceMap.value;
      var entries: seq<Element> := [];
      for i := 0 to |items|
        invariant |entries| == i
        invariant forall j :: 0 <= j < i ==> entries[j] == EntryElement(items[j])
      {
        var (key, value) := items[i];
        var entry := Element("entry", None, [Leaf("string", key), Leaf("string", value)]);
        entries := entries + [entry];
      }
      assert entries == EntryElements(items);
      children := children + [Element("sourceMap", None, entries)];
    }
    root := Element(RawMessageTag, None, children);
    MessageReadsBack(rawData, binary, sourceMap);
  }

  /** What a `RawMessage` element carries. */
  datatype RawMessageParts = RawMessageParts(binary: bool, rawData: Option<string>, sourceMap: seq<(string, string)>)

  /** Reading an `entry` element back into its key and value. */
  function ReadEntry(e: Element): Option<(string, string)> {
    if e.tag == "entry" && e.text == None && |e.children| == 2
      && e.children[0].tag == "string" && e.children[0].text.Some? && e.children[0].children == []
      && e.children[1].tag == "string" && e.children[1].text.Some? && e.children[1].children == []
    then Some((e.children[0].text.value, e.children[1].text.value))
    else None
  }

  function ReadEntries(es: seq<Element>): Option<seq<(string, string)>> {
    if es == [] then Some([])
    else
      match (ReadEntry(es[0]), ReadEntries(es[1..]))
      case (Some(item), Some(rest)) => Some([item] + rest)
      case _ => None
  }

  /**
   * Reading a `RawMessage` element back: the flag, an optional non-empty
   * raw payload and an optional non-empty source map, in that order.
   */
  function ReadRawMessage(root: Element): Option<RawMessageParts> {
    if root.tag != RawMessageTag || root.text != None || |root.children| == 0 then None
    else
      var first := root.children[0];
      var flag := if first.tag == "binary" && first.children == [] && first.text.Some?
        then ParseFlag(first.text.value) else None;
      var rest := root.children[1..];
      var hasRaw := |rest| > 0 && rest[0].tag == "rawData";
      var raw := if hasRaw && rest[0].children == [] && StringTruthy(rest[0].text) then rest[0].text else None;
      var tail := if hasRaw then rest[1..] else rest;
      var entries :=
        if tail == [] then Some([])
        else if |tail| == 1 && tail[0].tag == "sourceMap" && tail[0].text == None && |tail[0].children| > 0
        then ReadEntries(tail[0].children) else None;
      if flag.None? || (hasRaw && raw.None?) || entries.None? then None
      else Some(RawMessageParts(flag.value, raw, entries.value))
  }

  /** A built message reads back as its flag, its normalised payload and its items. */
  lemma MessageReadsBack(rawData: Option<string>, binary: bool, sourceMap: Option<seq<(string, string)>>)
    ensures ReadRawMessage(Element(RawMessageTag, None, MessageChildren(rawData, binary, sourceMap))) ==
      Some(RawMessageParts(binary, if StringTruthy(rawData) then rawData else None,
                           if sourceMap.Some? then sourceMap.value else []))
  {
    var cs := MessageChildren(rawData, binary, sourceMap);
    var rest := cs[1..];
    assert ParseFlag(QueryMap(binary)) == Some(binary);
    var tail := if StringTruthy(rawData) then rest[1..] else rest;
    if MapTruthy(sourceMap) {
      assert tail == [Element("sourceMap", None, EntryElements(sourceMap.value))];
      ReadEntriesOfBuilt(sourceMap.value);
    } else {
      assert tail == [];
    }
  }

  lemma {:induction false} ReadEntriesOfBuilt(items: seq<(string, string)>)
    ensures ReadEntries(EntryElements(items)) == Some(items)
  {
    if items != [] {
      assert ReadEntry(EntryElement(items[0])) == Some(items[0]);
      ReadEntriesOfBuilt(items[1..]);
      assert [items[0]] + items[1..] == items;
      assert EntryElements(items)[1..] == EntryElements(items[1..]);
    }
  }

  // ---------------------------------------------------------------------
  // The source map seen by the hashmap decoder

  /** The dict a sequence of items builds when inserted in order. */
  function AsDict(items: seq<(string, string)>): map<Xml, Xml> {
    if items == [] then map[]
    else
      var last := items[|items| - 1];
      AsDict(items[..|items| - 1])[LeafValue(Some(last.0)) := LeafValue(Some(last.1))]
  }

  /** What the XML parser makes of one built `entry` element. */
  function EntryReading(item: (string, string)): Xml {
    Dict([("string", XList([LeafValue(Some(item.0)), LeafValue(Some(item.1))]))])
  }

  lemma EntryElementReading(item: (string, string))
    ensures Reading(EntryElement(item)) == EntryReading(item)
    ensures MapItemToDict(EntryReading(item)) ==
      Success(map[LeafValue(Some(item.0)) := LeafValue(Some(item.1))])
  {
    var cs := EntryElement(item).children;
    var k, v := LeafValue(Some(item.0)), LeafValue(Some(item.1));
    assert Reading(cs[0]) == k && Reading(cs[1]) == v;
    GroupedSameTag(cs, "string");
    assert Readings(cs) == [k, v];
    PairEntryDict(k, v);
  }

  /** A `string` tag holding a hashable key and a value reads back as the one-entry dict. */
  lemma PairEntryDict(k: Xml, v: Xml)
    requires Hashable(k)
    ensures MapItemToDict(Dict([("string", XList([k, v]))])) == Success(map[k := v])
  {
    assert [("string", XList([k, v]))][0].0 == "string";
  }

  /** Siblings that share one tag are read back as that tag alone: one value, or a list of values. */
  lemma {:induction false} GroupedSameTag(cs: seq<Element>, tag: string)
    requires |cs| >= 1 && forall i :: 0 <= i < |cs| ==> cs[i].tag == tag
    ensures |cs| == 1 ==> Grouped(cs) == [(tag, Reading(cs[0]))]
    ensures |cs| >= 2 ==> Grouped(cs) == [(tag, XList(Readings(cs)))]
  {
    var n := |cs| - 1;
    var front := cs[..n];
    if n == 0 {
      assert front == [];
    } else {
      GroupedSameTag(front, tag);
      assert Grouped(cs) == AddChild(Grouped(front), tag, Reading(cs[n]));
      assert Readings(cs) == Readings(front) + [Reading(cs[n])];
      if n == 1 {
        ReadingIsNoList(cs[0]);
        assert front[0] == cs[0];
        assert Readings(front) == [Reading(cs[0])];
        assert Grouped(front) == [(tag, Reading(cs[0]))];
        assert Readings(cs) == [Reading(cs[0]), Reading(cs[1])];
        assert AddChild([(tag, Reading(cs[0]))], tag, Reading(cs[1])) == [(tag, XList([Reading(cs[0]), Reading(cs[1])]))];
      }
    }
  }

  function Readings(cs: seq<Element>): (rs: seq<Xml>)
    ensures |rs| == |cs|
    ensures forall i :: 0 <= i < |cs| ==> rs[i] == Reading(cs[i])
  {
    if cs == [] then [] else Readings(cs[..|cs| - 1]) + [Reading(cs[|cs| - 1])]
  }

  lemma ReadingIsNoList(e: Element)
    ensures !Reading(e).XList?
  {
  }

  lemma {:induction false} FlattenEntryReadings(items: seq<(string, string)>)
    ensures FlattenItems(Readings(EntryElements(items))) == Success(AsDict(items))
  {
    if items != [] {
      var n := |items| - 1;
      var rs := Readings(EntryElements(items));
      FlattenEntryReadings(items[..n]);
      assert rs[..n] == Readings(EntryElements(items[..n]));
      var last := items[n];
      var k, v := LeafValue(Some(last.0)), LeafValue(Some(last.1));
      EntryElementReading(last);
      assert rs[n] == EntryReading(last);
      FlattenStep(rs, AsDict(items[..n]), map[k := v]);
      assert AsDict(items) == AsDict(items[..n])[k := v];
      UpdateIsUnion(AsDict(items[..n]), k, v);
    }
  }

  /** Flattening one more item adds that item's dict on top of the rest. */
  lemma FlattenStep(rs: seq<Xml>, m: map<Xml, Xml>, p: map<Xml, Xml>)
    requires |rs| > 0 && FlattenItems(rs[..|rs| - 1]) == Success(m) && MapItemToDict(rs[|rs| - 1]) == Success(p)
    ensures FlattenItems(rs) == Success(m + p)
  {
  }

  lemma UpdateIsUnion(m: map<Xml, Xml>, k: Xml, v: Xml)
    ensures m[k := v] == m + map[k := v]
  {
  }


  /**
   * A built source map, read back by the XML parser and run through the
   * `metaDataMap` decoder (strip `entry`, then flatten), gives back the map:
   * one entry arrives as a bare mapping, several as a list, and both decode.
   */
  lemma SourceMapRoundTrip(items: seq<(string, string)>)
    requires |items| > 0
    ensures DecodeMetaDataMap(Reading(Element("sourceMap", None, EntryElements(items)))) == Success(AsDict(items))
  {
    var es := EntryElements(items);
    GroupedSameTag(es, "entry");
    var inner := if |es| == 1 then Reading(es[0]) else XList(Readings(es));
    assert Reading(Element("sourceMap", None, es)) == Dict([("entry", inner)]);
    DecodeUnderEntry(inner);
    if |items| == 1 {
      OneEntryFlattens(items);
    } else {
      FlattenEntryReadings(items);
    }
  }

  lemma OneEntryFlattens(items: seq<(string, string)>)
    requires |items| == 1
    ensures FlattenMap(Reading(EntryElements(items)[0])) == Success(AsDict(items))
  {
    EntryElementReading(items[0]);
    assert items[..0] == [];
    assert AsDict(items) == map[][LeafValue(Some(items[0].0)) := LeafValue(Some(items[0].1))];
  }

  lemma DecodeUnderEntry(inner: Xml)
    ensures StripEntryRoot(Dict([("entry", inner)])) == Success(inner)
  {
    assert [("entry", inner)][0].0 == "entry";
  }

  /**
   * When the keys stay distinct once the parser strips their whitespace, each
   * key maps to its own value.
   */
  lemma {:induction false} AsDictAt(items: seq<(string, string)>, i: nat)
    requires i < |items|
    requires forall a, b :: 0 <= a < b < |items| ==> LeafValue(Some(items[a].0)) != LeafValue(Some(items[b].0))
    ensures LeafValue(Some(items[i].0)) in AsDict(items)
    ensures AsDict(items)[LeafValue(Some(items[i].0))] == LeafValue(Some(items[i].1))
  {
    var n := |items| - 1;
    if i < n {
      var front := items[..n];
      assert front[i] == items[i];
      assert LeafValue(Some(items[i].0)) != LeafValue(Some(items[n].0));
      AsDictAt(front, i);
    }
  }

  // ---------------------------------------------------------------------
  // raise_post_errors

  /** The parts of a returned connector message that the post-error rule reads. */
  datatype PostedConnector = PostedConnector(status: string, errorCode: int, response: Option<ConnectorMessageData>)

  predicate IsError(c: PostedConnector) {
    c.status == "ERROR"
  }

  /** `response and response.content`: a response stage with non-empty content. */
  predicate HasErrorBody(c: PostedConnector) {
    c.response.Some? && StringTruthy(c.response.value.content)
  }

  const PostErrorPrefix := "Error posting to Mirth: "
  const ErrorCodePrefix := "Error Code "

  /**
   * The message of the raised post error: the message parsed from the
   * response content when there is one, the error code otherwise.
   * `parseErrorMessage` stands for the error-message model's parser.
   */
  function PostErrorText(c: PostedConnector, parseErrorMessage: string -> string): (text: string)
    ensures |PostErrorPrefix| <= |text| && text[..|PostErrorPrefix|] == PostErrorPrefix
    ensures HasErrorBody(c) ==> text[|PostErrorPrefix|..] == parseErrorMessage(c.response.value.content.value)
    ensures !HasErrorBody(c) ==>
      var n := |PostErrorPrefix| + |ErrorCodePrefix|;
      && n < |text|
      && text[|PostErrorPrefix|..n] == ErrorCodePrefix
      && (c.errorCode < 0 <==> text[n] == '-')
      && (c.errorCode >= 0 ==> IsDecimal(text[n..]) && DecimalValue(text[n..]) == c.errorCode)
      && (c.errorCode < 0 ==> IsDecimal(text[n + 1..]) && DecimalValue(text[n + 1..]) == -c.errorCode)
  {
    if HasErrorBody(c) then
      var detail := parseErrorMessage(c.response.value.content.value);
      PrefixSplit(PostErrorPrefix, detail);
      PostErrorPrefix + detail
    else
      ThreeParts(PostErrorPrefix, ErrorCodePrefix, IntToString(c.errorCode));
      PostErrorPrefix + (ErrorCodePrefix + IntToString(c.errorCode))
  }

  lemma PrefixSplit(p: string, d: string)
    ensures |p| <= |p + d| && (p + d)[..|p|] == p && (p + d)[|p|..] == d
  {
  }

  /** The slices of `p + e + t` at the two seams, and just past the second. */
  lemma ThreeParts(p: string, e: string, t: string)
    requires |t| >= 1
    ensures var s := p + (e + t);
      && |p| + |e| < |s|
      && s[..|p|] == p && s[|p|..|p| + |e|] == e && s[|p| + |e|..] == t
      && s[|p| + |e|] == t[0] && s[|p| + |e| + 1..] == t[1..]
  {
    var s := p + (e + t);
    assert s[|p| + |e|..] == t;
  }

  /**
   * `raise_post_errors`: `None` when it returns normally, `Some(text)` when it
   * raises a post error with message `text`.  `connectorMessages` are the
   * message's connector messages in iteration order.
   */
  method RaisePostErrors(connectorMessages: seq<PostedConnector>, parseErrorMessage: string -> string)
    returns (raised: Option<string>)
    ensures raised.None? <==> forall i :: 0 <= i < |connectorMessages| ==> !IsError(connectorMessages[i])
    ensures raised.Some? ==> exists i ::
      && 0 <= i < |connectorMessages|
      && IsError(connectorMessages[i])
      && (forall j :: 0 <= j < i ==> !IsError(connectorMessages[j]))
      && raised.value == PostErrorText(connectorMessages[i], parseErrorMessage)
  {
    for i := 0 to |connectorMessages|
      invariant forall j :: 0 <= j < i ==> !IsError(connectorMessages[j])
    {
      var connectorMessage := connectorMessages[i];
      if connectorMessage.status == "ERROR" {
        var errorMessage;
        if connectorMessage.response.Some? && StringTruthy(connectorMessage.response.value.content) {
          errorMessage := parseErrorMessage(connectorMessage.response.value.content.value);
        } else {
          errorMessage := ErrorCodePrefix + IntToString(connectorMessage.errorCode);
        }
        return Some(PostErrorPrefix + errorMessage);
      }
    }
    return None;
  }

  // ---------------------------------------------------------------------
  // Channel construction: the post path

  /** A server version; only (major, minor, patch) take part in the comparison. */
  datatype Version = Version(major: nat, minor: nat, patch: nat)

  /** `v >= w` in version order. */
  predicate AtLeast(v: Version, w: Version) {
    v.major > w.major
    || (v.major == w.major && v.minor > w.minor)
    || (v.major == w.major && v.minor == w.minor && v.patch >= w.patch)
  }

  const ObjectEndpointVersion := Version(3, 9, 0)

  /** Versions compare numerically, part by part: 3.12.0 is past 3.9.0. */
  lemma VersionExamples()
    ensures AtLeast(Version(3, 12, 0), ObjectEndpointVersion)
    ensures AtLeast(Version(4, 0, 0), ObjectEndpointVersion)
    ensures !AtLeast(Version(3, 8, 9), ObjectEndpointVersion)
  {
  }

  class Channel {
    /** The channel id as the caller gives it (the source stores its canonical UUID form). */
    const id: string
    var postMessagePath: string

    /**
     * `Channel.__init__`: posts go to `messagesWithObj` when the server
     * reports a version of at least 3.9.0, to `messages` otherwise.
     * `version` is `None` when the server reports none (or an empty one).
     */
    constructor (id: string, version: Option<Version>)
      ensures this.id == id
      ensures version.Some? && AtLeast(version.value, ObjectEndpointVersion) ==>
        postMessagePath == "/channels/" + id + "/messagesWithObj"
      ensures !(version.Some? && AtLeast(version.value, ObjectEndpointVersion)) ==>
        postMessagePath == "/channels/" + id + "/messages"
    {
      this.id := id;
      postMessagePath := "/channels/" + id + "/messages";
      new;
      if version.Some? {
        if AtLeast(version.value, ObjectEndpointVersion) {
          postMessagePath := "/channels/" + id + "/messagesWithObj";
        }
      }
    }
  }

  // ---------------------------------------------------------------------
  // Query parameters

  /** A query-parameter value: a string, a list of strings, or whatever else a caller put there. */
  datatype ParamValue = Str(s: string) | StrList(items: seq<string>) | Other

  function UpperAll(ss: seq<string>): (rs: seq<string>)
    ensures |rs| == |ss|
    ensures forall i :: 0 <= i < |ss| ==> rs[i] == UpperString(ss[i])
  {
    if ss == [] then [] else [UpperString(ss[0])] + UpperAll(ss[1..])
  }

  /** The parameters `get_messages` sends, from the caller's parameters `base`. */
  function GetMessagesQuery(base: map<string, ParamValue>, limit: int, offset: int,
                            includeContent: bool, status: Option<seq<string>>): (q: map<string, ParamValue>)
    ensures "limit" in q && q["limit"] == Str(IntToString(limit))
    ensures "offset" in q && q["offset"] == Str(IntToString(offset))
    ensures "includeContent" in q && q["includeContent"] == Str(QueryMap(includeContent))
    ensures status.Some? && |status.value| > 0 ==> "status" in q && q["status"] == StrList(UpperAll(status.value))
    ensures !(status.Some? && |status.value| > 0) ==> ("status" in q <==> "status" in base)
    ensures forall k :: k in base ==> k in q
    ensures forall k :: k in q && k !in {"limit", "offset", "includeContent", "status"} ==> k in base && q[k] == base[k]
    ensures forall k :: (k in base && k !in {"limit", "offset", "includeContent"}
      && !(k == "status" && status.Some? && |status.value| > 0)) ==> q[k] == base[k]
  {
    var fixed := base + map["limit" := Str(IntToString(limit)), "offset" := Str(IntToString(offset)),
                            "includeContent" := Str(QueryMap(includeContent))];
    if status.Some? && |status.value| > 0 then fixed["status" := StrList(UpperAll(status.value))] else fixed
  }

  /** A caller's mutable parameter dict. */
  class QueryParams {
    var entries: map<string, ParamValue>

    constructor (entries: map<string, ParamValue>)
      ensures this.entries == entries
    {
      this.entries := entries;
    }
  }

  /**
   * The parameter assembly of `get_messages`.  `params or {}` means that a
   * missing or empty caller dict is replaced by a fresh one, which is the one
   * updated and sent; a non-empty caller dict is updated in place.
   */
  method PrepareGetMessagesParams(params: QueryParams?, limit: int, offset: int,
                                  includeContent: bool, status: Option<seq<string>>)
    returns (sent: QueryParams)
    modifies params
    ensures params != null && old(params.entries) != map[] ==> sent == params
    ensures params == null || old(params.entries) == map[] ==> fresh(sent)
    ensures params != null && old(params.entries) == map[] ==> params.entries == map[]
    ensures sent.entries ==
      GetMessagesQuery(if params != null then old(params.entries) else map[], limit, offset, includeContent, status)
  {
    if params != null && params.entries != map[] {
      sent := params;
    } else {
      sent := new QueryParams(map[]);
    }
    sent.entries := sent.entries + map["limit" := Str(IntToString(limit)), "offset" := Str(IntToString(offset)),
                                       "includeContent" := Str(QueryMap(includeContent))];
    if status.Some? && |status.value| > 0 {
      sent.entries := sent.entries["status" := StrList(UpperAll(status.value))];
    }
  }

  /** One `key=value` query parameter. */
  function Param(key: string, value: string): string {
    key + ['='] + value
  }

  /** The query string of `reprocess_message`; it parses back into both flags. */
  function ReprocessQuery(replace: bool, filterDestinations: bool): (query: string)
    ensures ParseReprocessQuery(query) == Some((replace, filterDestinations))
  {
    var r := Param("replace", QueryMap(replace));
    var f := Param("filterDestinations", QueryMap(filterDestinations));
    FlagParam("replace", replace);
    FlagParam("filterDestinations", filterDestinations);
    TwoParamsSplit(r, f);
    r + ['&'] + f
  }

  /** Reading a reprocess query string back into its two flags. */
  function ParseReprocessQuery(query: string): Option<(bool, bool)> {
    var pairs := Split(query, '&');
    if |pairs| != 2 then None
    else
      var first := Split(pairs[0], '=');
      var second := Split(pairs[1], '=');
      if |first| != 2 || |second| != 2 || first[0] != "replace" || second[0] != "filterDestinations" then None
      else
        match (ParseFlag(first[1]), ParseFlag(second[1]))
        case (Some(r), Some(f)) => Some((r, f))
        case _ => None
  }

  /** A split at the first separator: the text before it, then the pieces of the rest. */
  lemma {:induction false} SplitAtFirst(a: string, b: string, sep: char)
    requires sep !in a
    ensures Split(a + [sep] + b, sep) == [a] + Split(b, sep)
  {
    if a == [] {
      assert [] + [sep] + b == [sep] + b;
      assert ([sep] + b)[1..] == b;
    } else {
      assert (a + [sep] + b)[1..] == a[1..] + [sep] + b;
      SplitAtFirst(a[1..], b, sep);
      assert [a[0]] + a[1..] == a;
    }
  }

  lemma SplitWithout(a: string, sep: char)
    requires sep !in a
    ensures Split(a, sep) == [a]
  {
    var parts := Split(a, sep);
    if |parts| > 1 {
      assert false;
    }
  }

  /** Two parameters joined by `&`, neither holding `&`, split back into the two. */
  lemma TwoParamsSplit(first: string, second: string)
    requires '&' !in first && '&' !in second
    ensures Split(first + ['&'] + second, '&') == [first, second]
  {
    SplitAtFirst(first, second, '&');
    SplitWithout(second, '&');
  }

  /** A flag parameter holds no `&` and splits at `=` into its key and its flag. */
  lemma FlagParam(key: string, b: bool)
    requires '=' !in key && '&' !in key
    ensures '&' !in Param(key, QueryMap(b))
    ensures Split(Param(key, QueryMap(b)), '=') == [key, QueryMap(b)]
  {
    ParamSplit(key, QueryMap(b));
  }

  /** A parameter whose key and value hold no `=` splits at `=` back into key and value. */
  lemma ParamSplit(key: string, value: string)
    requires '=' !in key && '=' !in value
    ensures Split(Param(key, value), '=') == [key, value]
  {
    SplitAtFirst(key, value, '=');
    SplitWithout(value, '=');
  }
}
