# Mirth Connect client: a verified model of the record decoder and the message builder

`python-mirth-client` is an asynchronous client for the Mirth Connect
management API. Its logic is in two files. This project models that logic in
Dafny and proves properties of it:

* `mirth_client/models.py` turns a parsed XML tree into records. The steps are:
  - unwrap the envelope element (`strip_xml_root`);
  - unwrap the `entry` elements of nested collections;
  - derive camelCase element names from snake_case field names (`_to_camel`);
  - flatten Mirth's XML hashmaps (`_xml_map_item_to_dict`, `_xml_map_to_dict`);
  - choose the content-type/encoding route in `parse_raw` and the envelope name in `xml`.
* `mirth_client/channels.py` builds the outbound `RawMessage` element tree
  (`build_channel_message`) and decides whether a post failed
  (`raise_post_errors`). It also picks the post path from the server
  version (`Channel.__init__`) and assembles the query parameters of
  `get_messages` and `reprocess_message`.

The modules follow the program's structure:

| file | module | contents |
|---|---|---|
| `wrappers.dfy` | `Wrappers` | `Option`, `Result` |
| `text.dfy` | `Text` | ASCII casing, `str.upper`, substring and suffix tests, decimal spelling of integers |
| `xml_tree.dfy` | `XmlTree` | the parsed value `Xml`: empty (`Null`), text, ordered mapping, or list. Also the element tree `Element` (tag, text, ordered children) and `Reading`, which reads an attribute-less element tree the way the XML parser groups repeated tags |
| `camel.dfy` | `Camel` | `str.split`, `str.title`, the alias generator, a one-pass reference scanner and the inverse on snake-case names |
| `xml_maps.dfy` | `XmlMaps` | the hashmap flattener, with one error per failure |
| `models.dfy` | `Models` | envelope and `entry` stripping, parse dispatch, the `metaDataMap` decoder, record schemas and their alias tables |
| `channels.dfy` | `Channels` | message builder, post-error rule, `Channel` post path, query parameters |

Python failures are modelled as `Failure` values that carry a distinct error. This covers every explicit `raise` at `models.py:242/244/252/259/272`. It also covers the implicit failures: `len(None)`, indexing a mapping by `0`, an unhashable key, and `in` applied to `None`. Python `in` means substring on a string, membership on a list and key lookup on a mapping; the `entry` strippers model all three.

## Model

| member | source | states |
|---|---|---|
| Camel.Split | mirth_client/models.py:50 | `str.split("_")` returns at least one piece, no piece contains the separator, and joining the pieces with the separator gives back the input |
| Camel.TitleFrom | mirth_client/models.py:51 | ASCII `x.title()` keeps the length; each cased character is upper-cased when the character before it is not cased (or it is first) and lower-cased otherwise; other characters are kept |
| Camel.ToCamel | mirth_client/models.py:41-51 | the alias equals the independent one-pass reading `Scan`: characters of the first piece are copied, every `_` is dropped, and later pieces are title-cased as they stream past |
| Camel.ToCamelShape | mirth_client/models.py:50-51 | an alias holds no `_`; its length is the input length minus the number of `_`; a name without `_` is returned unchanged |
| Camel.ToCamelKeepsFirstPiece | mirth_client/models.py:51 | the part of the name before its first `_` is kept verbatim at the start of the alias |
| Camel.TitleOfLowerWord | mirth_client/models.py:51 | a later piece made of lower-case letters gets an upper-case first letter and keeps the rest |
| Camel.ToCamelRoundTrip | mirth_client/models.py:41-51 | on snake-case names (lower-case letters, single inner `_`) the alias can be decoded back to the field name |
| Camel.ToCamelInjective | mirth_client/models.py:41-62 | distinct snake-case field names get distinct aliases |
| Models.Aliases | mirth_client/models.py:59-62 | a model's alias table is the alias generator applied to each field name, in order |
| Models.SnakeFieldsHaveDistinctAliases | mirth_client/models.py:59-62 | distinct snake-case fields give an alias table without duplicates |
| Models.ChannelAliasesDistinct | mirth_client/models.py:168-175 | the aliases of `ChannelModel`'s fields are pairwise distinct |
| Models.LoginResponseAliasesDistinct | mirth_client/models.py:185-191 | likewise for `LoginResponse` |
| Models.EventAliasesDistinct | mirth_client/models.py:194-205 | likewise for `EventModel` |
| Models.ChannelStatisticsAliasesDistinct | mirth_client/models.py:215-225 | likewise for `ChannelStatistics` |
| Models.ConnectorMessageDataAliasesDistinct | mirth_client/models.py:228-237 | likewise for `ConnectorMessageData` |
| Models.ConnectorMessageAliasesDistinct | mirth_client/models.py:307-328 | likewise for `ConnectorMessageModel` |
| Models.ChannelMessageAliasesDistinct | mirth_client/models.py:342-351 | likewise for `ChannelMessageModel` |
| Models.FieldValue | mirth_client/models.py:54-62 | a field is read from a record under its camelCase alias. It fails exactly when the field is required and its alias is absent, reporting that alias as missing; a present alias gives the stored value; an absent optional field gives `None` |
| Models.AbsentFieldDefaults | mirth_client/models.py:185-191 | a record holding one field (a login response with only `status`), read for another: `None` when that field is optional (`message`), an error when it is required, and the present field as stored |
| Models.LoginStatusWithStatusOnly | mirth_client/models.py:185-191 | a `com.mirth.connect.model.LoginStatus` document holding only `status`: stripping its declared root leaves the record, `status` reads as stored, and `message` and `updated_username`, which are declared `Optional`, read as `None` |
| Models.LoginResponseAlias | mirth_client/models.py:189-191 | of the login response's fields, only `status` has the alias `status`, and the other two are exactly the `Optional` ones |
| Models.StripXmlRoot | mirth_client/models.py:92-94 | the value stored under the root is returned exactly when the declared root is non-empty and is a key; otherwise the mapping is returned unchanged |
| Models.XmlEnvelope | mirth_client/models.py:151-161 | serialisation wraps the body in a one-key document; the key is the declared root when it is non-empty and the class name otherwise |
| Models.EnvelopeRoundTrip | mirth_client/models.py:92-94 | when the root is non-empty, stripping the envelope that serialisation adds gives back the body |
| Models.ClassNameEnvelopeKept | mirth_client/models.py:92-94 | a model without a root keeps the class-name envelope when parsed back |
| Models.ChooseParseRoute | mirth_client/models.py:120-126 | the XML route is taken exactly when the content type is present, non-empty and ends with `xml`; on that route `utf8` becomes `utf-8` and any other encoding is passed through |
| Models.ParseRouteExamples | mirth_client/models.py:120-124 | the suffix test is case-sensitive: `application/XML` takes the default route |
| Models.StripEntryRoot | mirth_client/models.py:337-339 | a mapping yields its `entry` value when it has one and is otherwise unchanged. A string fails exactly when it contains `entry` as a substring; a list fails exactly when it holds the string `entry`; an empty value fails because `in` cannot be applied to it |
| Models.DecodeMetaDataMap | mirth_client/models.py:328-339 | the `metaDataMap` field is decoded by `entry` stripping followed by the flattener. A failure at either stage is reported as that stage's error |
| Models.MetaDataMapShapes | mirth_client/models.py:302-304 | one `entry` gives a one-item map, and several give the union of their maps. A tag-less entry mapping fails with the missing-`string` error, an empty `<entry/>` (read as `None`) fails as not a mapping, and an empty field fails |
| XmlMaps.Pair | mirth_client/models.py:277 | `{k: v}` succeeds exactly when the key is hashable, and then holds exactly that pair |
| XmlMaps.StringPair | mirth_client/models.py:258-261 | the one-key case: a two-item list gives `{items[0]: items[1]}` when the first item is hashable; a two-character string gives its two characters as key and value; an empty value has no length; a two-key mapping cannot be indexed by position; any other length fails as not a pair. Every success is a single pair with a hashable key |
| XmlMaps.MapItemToDict | mirth_client/models.py:238-278 | fails as not-a-mapping exactly when the input is not a mapping; as no-`string`-key exactly when the key is absent; as too-many-keys exactly when there are more than two keys. In the two-key case it succeeds exactly when `string` holds a string and the first value can be a key, and then maps the first value (in insertion order) to the second |
| XmlMaps.EntryFailures | mirth_client/models.py:253-278 | in the two-key case, a `string` tag that does not hold one string fails as not-a-single-string, and an unhashable first value fails as unhashable; the one-key case is exactly the pair rule of the value under `string` |
| XmlMaps.OneKeyEntry | mirth_client/models.py:255-261 | in the one-key case, exactly two items under `string` give `{items[0]: items[1]}`, or fail as unhashable when the first item is a mapping or list; a two-key mapping under `string` fails on positional indexing; any other length fails as not a pair; an empty value fails on `len` |
| XmlMaps.MapItemSingleEntry | mirth_client/models.py:277-278 | every successful item conversion returns exactly one pair with a hashable key |
| XmlMaps.FlattenItems | mirth_client/models.py:287-290 | a list flattens only when every item converts, and a failure is the error of one of its items |
| XmlMaps.FlattenMap | mirth_client/models.py:281-291 | an empty list gives an empty map; a non-list gives exactly that item's conversion |
| XmlMaps.XmlMapToDict | mirth_client/models.py:281-291 | the loop with in-place `update` and an escaping error computes the left fold `FlattenMap` |
| XmlMaps.FlattenSucceedsIffAll | mirth_client/models.py:287-290 | a list flattens exactly when every item converts |
| XmlMaps.FlattenFirstError | mirth_client/models.py:287-290 | a failing list reports the error of its first failing item |
| XmlMaps.FlattenKeys | mirth_client/models.py:287-290 | the keys of the flattened map are exactly the keys produced by the items |
| XmlMaps.FlattenLastWins | mirth_client/models.py:289 | for a duplicated key, the value of the last item that sets it wins |
| XmlTree.LookupAt | mirth_client/models.py:93 | in a mapping with distinct keys, indexing by a key gives the value stored with it |
| XmlTree.LeafValueOfText | mirth_client/models.py:120-125 | the parser reads a missing or all-whitespace text as `None` and a text without surrounding whitespace as itself (other text is stripped) |
| Text.NatToStringRoundTrip | mirth_client/channels.py:74 | the decimal text of a non-negative number reads back as that number |
| Channels.QueryMap | mirth_client/channels.py:23-26 | `QUERY_MAP` (and `str(b).lower()`) spells each flag as a word that reads back as the flag and holds no `&` or `=` |
| Channels.BuildChannelMessage | mirth_client/channels.py:29-53 | the root is tagged `com.mirth.connect.donkey.model.message.RawMessage`. Its children are `binary` (text `true`/`false`); then `rawData` with the payload exactly when the payload is non-empty; then `sourceMap` exactly when the map is non-empty. `sourceMap` holds one `entry` per item in iteration order, each with the key's and then the value's `string` child. The result reads back as the flag, the payload and the items |
| Channels.MessageChildren | mirth_client/channels.py:39-52 | the child tags are `binary`, then `rawData` when the payload is truthy, then `sourceMap` when the map is truthy |
| Channels.MessageReadsBack | mirth_client/channels.py:37-53 | a built message is decoded by `ReadRawMessage` back into its flag, its payload (dropped when empty) and its items |
| Channels.SourceMapRoundTrip | mirth_client/channels.py:45-52 | a built `sourceMap`, read by the stand-in reader `XmlTree.Reading` and decoded like `metaDataMap` (strip `entry`, then flatten), gives the map the items build once the parser has stripped each key and value (blank text becoming `None`). This holds both for one entry (a bare mapping) and for several (a list) |
| Channels.AsDictAt | mirth_client/channels.py:47-52 | when the keys stay distinct after that stripping, every item of the source map is found under its key in the decoded map |
| Channels.RaisePostErrors | mirth_client/channels.py:57-75 | the function returns normally exactly when no connector message has status `ERROR`. Otherwise it raises for the first such message with `Error posting to Mirth: `, followed by either the parsed response content (when a response with non-empty content exists) or `Error Code <error code>` |
| Channels.PostErrorText | mirth_client/channels.py:68-75 | the message starts with `Error posting to Mirth: `. With a response holding non-empty content, the rest is the parsed content's message. Otherwise the rest is `Error Code ` followed by `str(error_code)`: a minus sign exactly when the code is negative, then digits without a leading zero that read back as the code's magnitude. By `Text.DecimalIsNatToString`, this fixes the text exactly |
| Text.IntToString | mirth_client/channels.py:74 | `str(i)` starts with `-` exactly when `i` is negative. The digits after any sign have no leading zero and read back as `|i|` |
| Text.DecimalIsNatToString | mirth_client/channels.py:74 | a run of digits without a leading zero is the rendering of its own value, so `str(n)` is the only such text that reads back as `n` |
| Channels.Channel.constructor | mirth_client/channels.py:81-88 | the post path is `/channels/<id>/messagesWithObj` when a version is set and is at least 3.9.0, and `/channels/<id>/messages` otherwise |
| Channels.VersionExamples | mirth_client/channels.py:87 | versions compare numerically part by part: 3.12.0 and 4.0.0 use the new path, 3.8.9 does not |
| Channels.GetMessagesQuery | mirth_client/channels.py:129-139 | the query sets `limit` and `offset` to their decimal text and `includeContent` to `true`/`false`. It sets `status` to the upper-cased list exactly when the status list is non-empty, otherwise keeping the caller's `status` entry if there is one. Every other caller parameter is kept unchanged |
| Channels.PrepareGetMessagesParams | mirth_client/channels.py:129-139 | a non-empty caller dict is updated in place and sent. A missing or empty one is replaced by a fresh dict, and the caller's empty dict stays empty. The sent parameters are `GetMessagesQuery` of the caller's parameters |
| Channels.ReprocessQuery | mirth_client/channels.py:212 | the reprocess query `replace=<flag>&filterDestinations=<flag>` parses back into both flags |
| Channels.ParamSplit | mirth_client/channels.py:212 | a `key=value` parameter whose parts hold no `=` splits back into key and value |

## Left out

- `mirth_client/mirth.py` is not part of this model. It is network I/O: login, GET/POST and the fetches.
- The async methods of `Channel` are not modelled, since they are network round-trips. These are `get_info`, `get_statistics`, the fetch and response handling of `get_messages`, `preview_message`, `get_message`, `reprocess_message` and `post_message`. Only their pure pieces are modelled: the post path, the `get_messages` parameters and the reprocess query.
- `preview_message` parameter assembly (`channels.py:160-169`) is not modelled. It mixes integers and booleans into the dict; it has the same `params or {}` shape as `get_messages`.
- The XML libraries are foreign code and are not modelled: `xmltodict.parse`/`unparse` (including `force_list`, attributes, `#text`, mixed text and child content, and text escaping) and `ElementTree.tostring`. The parsed tree is the input to the decoder, and the builder stops at the element tree. `XmlTree.Reading` stands in for the parser only on attribute-less trees, to connect the builder with the decoder; it follows the parser's default stripping of surrounding whitespace from element text.
- Channels.SourceMapRoundTrip: the round trip goes through the stand-in reader, not the real serialiser and parser. The reader keeps element text as written up to whitespace stripping. It does not model XML end-of-line normalisation, which turns a `\r` in a key or value into `\n`. Nor does it reject characters that XML 1.0 forbids (such as `\0`, `\x01` or `\x0b`), on which the real parse fails. For such texts the promised map is not what the program produces.
- XmlTree.Reading: the same two parser behaviours, end-of-line normalisation and the rejection of characters XML forbids, are not modelled.
- XmlMaps.MapItemToDict: the model assumes the parser builds every mapping as an `OrderedDict`, so `Dict` always passes the `isinstance` test at `models.py:241`. Older xmltodict releases do this by default, and `models.py` passes no `dict_constructor`. With a parser that builds plain `dict`s, every entry would fail that test with `NotAnOrderedDict`.
- `ElementTree` attaches `sourceMap` to the root before it fills the entries. The model builds the element as a value, so that ordering of mutations is not represented.
- Pydantic's coercion and validation are not modelled: int/bool/UUID/datetime conversion and the `ValidationError` wrapping at `models.py:127-133`. Records are plain datatypes, and UUIDs and datetimes are kept as text. Pydantic also rejects a single mapping given to a `List` field. This happens to a one-item `<list>`, or to a connector map with one `entry`. Callers avoid it by parsing with `force_list`, as `mirth.py:98` and `mirth.py:166` do. Neither that rejection nor `force_list` is modelled.
- The exception class each failure surfaces as (`TypeError`, `ValueError` or `KeyError`, possibly wrapped by pydantic) is not modelled; only the distinct failure is.
- `Models.ChooseParseRoute` models only the route decision and the encoding name. The fall-through to pydantic's JSON parser is not modelled.
- Channels.Channel.constructor: the id goes into the post path as given. The source builds it from `str(UUID(id_))`, which canonicalises the id (lower case, hyphenated form) and raises `ValueError` on a malformed id; UUID parsing is foreign code, so neither the canonicalisation nor that error is modelled.
- `semver.VersionInfo.parse` is foreign code. The model compares (major, minor, patch) triples and does not model prerelease or build ordering. An empty version string counts as no version.
- `MirthErrorMessageModel.parse_raw` is not shown in the source. `Channels.RaisePostErrors` takes it as a function parameter from content to message.
- `Channels.RaisePostErrors` works on its own view of a connector message (status, error code, response). `ConnectorMessageModel` in `models.py` declares no `status` field, although `channels.py:67` reads one. Also, `channels.py:66` calls `.values()` on `connector_messages`, which `models.py:351` declares as a `List`; the model takes the messages as a sequence in iteration order.
- `MirthAPI` (not part of this model) never sets the `version` that `Channel.__init__` reads. The `Channel` constructor takes the version as a parameter.
- Casing (`str.title`, `str.upper`) is modelled on ASCII letters only; Unicode case mapping is not modelled. Whitespace stripping by the parser is modelled on ASCII whitespace only.
- The insertion order of the flattened Python dict is not modelled. The result is a Dafny `map`, so only its contents are stated.
- Names used only by tests are not part of this model: `MirthDatetime`, `GroupList`, `DashboardStatusList`, `ChannelStatisticsList`, and connector messages keyed by integer. `models.py` does not define them.
- `mirth_client/utils.py` (a deprecation decorator) is not modelled, for reflection and warnings. The test helpers and `__init__.py` re-exports are left out too.
