/**
 * The two tree shapes the client works with.
 *
 * `Xml` is what the XML parser hands to the models: a string, an ordered
 * mapping from tag to value (attribute-free elements with children), a list
 * of values (a tag that repeats under one parent), or `Null` for an element
 * with no content.  `Element` is what the client builds before serialising
 * an outbound message: a tag, an optional text and ordered children.
 */
module XmlTree {
  import opened Wrappers
  import opened Text

  datatype Xml =
    | Null
    | Text(s: string)
    | Dict(entries: seq<(string, Xml)>)
    | XList(items: seq<Xml>)

  /** `key in d` for an ordered mapping. */
  predicate HasKey(entries: seq<(string, Xml)>, key: string) {
    exists i :: 0 <= i < |entries| && entries[i].0 == key
  }

  /** The keys of an ordered mapping are distinct, as they are in a parsed document. */
  predicate DistinctKeys(entries: seq<(string, Xml)>) {
    forall i, j :: 0 <= i < j < |entries| ==> entries[i].0 != entries[j].0
  }

  /** `d[key]`: the value stored under `key`. */
  function Lookup(entries: seq<(string, Xml)>, key: string): (v: Xml)
    requires HasKey(entries, key)
    ensures exists i :: 0 <= i < |entries| && entries[i] == (key, v)
  {
    if entries[0].0 == key then entries[0].1 else Lookup(entries[1..], key)
  }

  /** Under distinct keys, the value found is the one stored at the key's position. */
  lemma {:induction false} LookupAt(entries: seq<(string, Xml)>, i: nat)
    requires DistinctKeys(entries) && i < |entries|
    ensures Lookup(entries, entries[i].0) == entries[i].1
  {
    if i > 0 {
      assert entries[1..][i - 1] == entries[i];
      LookupAt(entries[1..], i - 1);
    }
  }

  /** An element as the client builds it with ElementTree. */
  datatype Element = Element(tag: string, text: Option<string>, children: seq<Element>)

  /**
   * How the XML parser reads an element without attributes back, with its
   * default whitespace stripping: an element without children becomes its
   * text with surrounding whitespace removed (`Null` when nothing is left);
   * an element with children becomes an ordered mapping in which a tag that
   * occurs more than once is grouped into a list.
   */
  function Reading(e: Element): Xml
    decreases e, 1
  {
    if |e.children| == 0 then LeafValue(e.text) else Dict(Grouped(e.children))
  }

  /** The text of a childless element: blank text is read as `Null`, other text is stripped. */
  function LeafValue(text: Option<string>): (r: Xml)
    ensures r.Null? || r.Text?
  {
    match text
    case None => Null
    case Some(t) => var d := Strip(t); if d == "" then Null else Text(d)
  }

  /**
   * A missing text and an all-whitespace text are read as `Null`; a text
   * without surrounding whitespace is read as itself.
   */
  lemma LeafValueOfText(text: Option<string>)
    ensures text.None? ==> LeafValue(text) == Null
    ensures text.Some? ==> (LeafValue(text) == Null <==> forall i :: 0 <= i < |text.value| ==> IsSpace(text.value[i]))
    ensures text.Some? && text.value != [] && !IsSpace(text.value[0]) && !IsSpace(text.value[|text.value| - 1]) ==>
      LeafValue(text) == Text(text.value)
  {
    if text.Some? {
      StripShape(text.value);
    }
  }

  /** The children of one element, folded left to right into an ordered mapping. */
  function Grouped(cs: seq<Element>): seq<(string, Xml)>
    decreases cs, 0
  {
    if |cs| == 0 then []
    else AddChild(Grouped(cs[..|cs| - 1]), cs[|cs| - 1].tag, Reading(cs[|cs| - 1]))
  }

  /** The first repeat of a tag turns its value into a list; later repeats extend it. */
  function AddChild(acc: seq<(string, Xml)>, tag: string, v: Xml): seq<(string, Xml)> {
    if |acc| == 0 then [(tag, v)]
    else if acc[0].0 == tag then
      [(tag, if acc[0].1.XList? then XList(acc[0].1.items + [v]) else XList([acc[0].1, v]))] + acc[1..]
    else [acc[0]] + AddChild(acc[1..], tag, v)
  }
}
