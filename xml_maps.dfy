/**
 * The decoder for the engine's hashmap encoding.  Each map entry arrives
 * either as `{"string": [key, value]}` (key and value both strings) or as a
 * two-tag mapping such as `{"string": key, "int": value}`; a map with several
 * entries arrives as a list of such items.
 */
module XmlMaps {
  import opened Wrappers
  import opened XmlTree

  /** One error per way decoding an entry can fail. */
  datatype MapError =
    | NotAnOrderedDict    // the entry is not an ordered mapping (TypeError)
    | NoStringKey         // no `string` tag among the entry's tags
    | TooManyKeys         // the entry has neither one nor two tags
    | StringPairExpected  // one tag, but its value does not hold exactly two items
    | StringKeyNotSingle  // two tags, but the `string` tag does not hold a single string
    | NoLength            // one tag whose value is empty, so it has no length (TypeError)
    | NoPositionalIndex   // one tag holding a two-tag mapping, indexed by position (KeyError)
    | UnhashableKey       // the chosen key is a mapping or a list (TypeError)

  /** Values that can be keys of a Python dict: strings and `None`. */
  predicate Hashable(x: Xml) {
    x.Null? || x.Text?
  }

  /** `{key: value}`, refused when the key cannot be hashed. */
  function Pair(key: Xml, value: Xml): (r: Result<map<Xml, Xml>, MapError>)
    ensures r.Success? <==> Hashable(key)
    ensures r.Success? ==> r.value == map[key := value]
    ensures r.Failure? ==> r.error == UnhashableKey
  {
    if Hashable(key) then Success(map[key := value]) else Failure(UnhashableKey)
  }

  /** The one-tag case: the value under `string` holds the key and then the value. */
  function StringPair(v: Xml): (r: Result<map<Xml, Xml>, MapError>)
    ensures r.Success? ==> exists k :: k in r.value && Hashable(k) && r.value == map[k := r.value[k]]
    ensures v.Null? ==> r == Failure(NoLength)
    ensures v.Text? && |v.s| == 2 ==> r == Success(map[Text([v.s[0]]) := Text([v.s[1]])])
    ensures v.XList? && |v.items| == 2 ==> r == Pair(v.items[0], v.items[1])
    ensures v.Dict? && |v.entries| == 2 ==> r == Failure(NoPositionalIndex)
    ensures (v.Text? && |v.s| != 2) || (v.XList? && |v.items| != 2) || (v.Dict? && |v.entries| != 2) ==>
      r == Failure(StringPairExpected)
  {
    match v
    case Null => Failure(NoLength)
    case Text(t) =>
      // indexing a string gives its characters
      if |t| == 2 then
        var m := map[Text([t[0]]) := Text([t[1]])];
        assert Text([t[0]]) in m;
        Success(m)
      else Failure(StringPairExpected)
    case XList(items) =>
      if |items| == 2 then
        var r := Pair(items[0], items[1]);
        assert r.Success? ==> items[0] in r.value;
        r
      else Failure(StringPairExpected)
    case Dict(es) =>
      if |es| == 2 then Failure(NoPositionalIndex) else Failure(StringPairExpected)
  }

  /** `_xml_map_item_to_dict`: one hashmap entry as a one-entry dict. */
  function MapItemToDict(inDict: Xml): (r: Result<map<Xml, Xml>, MapError>)
    ensures r == Failure(NotAnOrderedDict) <==> !inDict.Dict?
    ensures r == Failure(NoStringKey) <==> inDict.Dict? && !HasKey(inDict.entries, "string")
    ensures r == Failure(TooManyKeys) <==>
      inDict.Dict? && HasKey(inDict.entries, "string") && !(1 <= |inDict.entries| <= 2)
    ensures r.Success? ==> inDict.Dict? && 1 <= |inDict.entries| <= 2
    ensures inDict.Dict? && |inDict.entries| == 2 && HasKey(inDict.entries, "string") ==>
      (r.Success? <==> Lookup(inDict.entries, "string").Text? && Hashable(inDict.entries[0].1))
    ensures inDict.Dict? && |inDict.entries| == 2 && r.Success? ==>
      r.value == map[inDict.entries[0].1 := inDict.entries[1].1]
  {
    if !inDict.Dict? then Failure(NotAnOrderedDict)
    else
      var entries := inDict.entries;
      if !HasKey(entries, "string") then Failure(NoStringKey)
      else if !(1 <= |entries| <= 2) then Failure(TooManyKeys)
      else if |entries| == 1 then
        StringPair(Lookup(entries, "string"))
      else if !Lookup(entries, "string").Text? then Failure(StringKeyNotSingle)
      else
        var r := Pair(entries[0].1, entries[1].1);
        assert r.Success? ==> entries[0].1 in r.value;
        r
  }

  /**
   * The two-tag case fails as `StringKeyNotSingle` (the raise for a `string`
   * tag that does not hold one string) or as `UnhashableKey`; the one-tag
   * case is the pair rule of the value under `string`.
   */
  lemma EntryFailures(inDict: Xml)
    ensures (inDict.Dict? && |inDict.entries| == 2 && HasKey(inDict.entries, "string")
             && !Lookup(inDict.entries, "string").Text?) ==> MapItemToDict(inDict) == Failure(StringKeyNotSingle)
    ensures (inDict.Dict? && |inDict.entries| == 2 && HasKey(inDict.entries, "string")
             && Lookup(inDict.entries, "string").Text? && !Hashable(inDict.entries[0].1)) ==>
      MapItemToDict(inDict) == Failure(UnhashableKey)
    ensures inDict.Dict? && |inDict.entries| == 1 && HasKey(inDict.entries, "string") ==>
      MapItemToDict(inDict) == StringPair(inDict.entries[0].1)
  {
  }

  /**
   * The one-tag case succeeds on exactly a two-item list with a hashable
   * first item, or a two-character string; every other value fails with its
   * own error.
   */
  lemma OneKeyEntry(v: Xml)
    ensures var r := MapItemToDict(Dict([("string", v)]));
      && (v.XList? && |v.items| == 2 && Hashable(v.items[0]) ==> r == Success(map[v.items[0] := v.items[1]]))
      && (v.XList? && |v.items| == 2 && !Hashable(v.items[0]) ==> r == Failure(UnhashableKey))
      && (v.Dict? && |v.entries| == 2 ==> r == Failure(NoPositionalIndex))
      && (v.Dict? && |v.entries| != 2 ==> r == Failure(StringPairExpected))
      && (v.Text? && |v.s| == 2 ==> r == Success(map[Text([v.s[0]]) := Text([v.s[1]])]))
      && ((v.XList? && |v.items| != 2) || (v.Text? && |v.s| != 2) ==> r == Failure(StringPairExpected))
      && (v.Null? ==> r == Failure(NoLength))
  {
    assert [("string", v)][0].0 == "string";
  }

  /** Every successful decode yields a dict with exactly one entry. */
  lemma MapItemSingleEntry(inDict: Xml)
    requires MapItemToDict(inDict).Success?
    ensures |MapItemToDict(inDict).value| == 1
    ensures forall k :: k in MapItemToDict(inDict).value ==> Hashable(k)
  {
    var entries := inDict.entries;
    var r := if |entries| == 1 then StringPair(Lookup(entries, "string")) else Pair(entries[0].1, entries[1].1);
    assert r == MapItemToDict(inDict);
    var k :| k in r.value && Hashable(k) && r.value == map[k := r.value[k]];
    assert r.value.Keys == {k};
  }

  /** The dict a successful decode yields, or the empty dict. */
  function ItemMap(x: Xml): map<Xml, Xml> {
    var r := MapItemToDict(x);
    if r.Success? then r.value else map[]
  }

  /**
   * Entries of a list folded left to right: the first failing entry's error
   * wins, otherwise later entries overwrite earlier ones (`dict.update`).
   */
  function FlattenItems(items: seq<Xml>): (r: Result<map<Xml, Xml>, MapError>)
    ensures r.Success? ==> forall i :: 0 <= i < |items| ==> MapItemToDict(items[i]).Success?
    ensures r.Failure? ==> exists i :: 0 <= i < |items| && MapItemToDict(items[i]) == Failure(r.error)
  {
    if items == [] then Success(map[])
    else
      var init := FlattenItems(items[..|items| - 1]);
      if init.Failure? then init
      else
        var last := MapItemToDict(items[|items| - 1]);
        if last.Failure? then Failure(last.error) else Success(init.value + last.value)
  }

  /** `_xml_map_to_dict`, as a specification: a list is folded, anything else is one entry. */
  function FlattenMap(inData: Xml): (r: Result<map<Xml, Xml>, MapError>)
    ensures inData == XList([]) ==> r == Success(map[])
    ensures !inData.XList? ==> r == MapItemToDict(inData)
  {
    if inData.XList? then FlattenItems(inData.items) else MapItemToDict(inData)
  }

  /** `_xml_map_to_dict`: the loop that merges each entry into `out` with `update`. */
  method XmlMapToDict(inData: Xml) returns (r: Result<map<Xml, Xml>, MapError>)
    ensures r == FlattenMap(inData)
  {
    if inData.XList? {
      var items := inData.items;
      var out: map<Xml, Xml> := map[];
      var i := 0;
      while i < |items|
        invariant 0 <= i <= |items|
        invariant FlattenItems(items[..i]) == Success(out)
      {
        var item := MapItemToDict(items[i]);
        assert items[..i + 1][..i] == items[..i];
        if item.Failure? {
          FlattenKeepsFailure(items, i + 1);
          return Failure(item.error);
        }
        out := out + item.value;
        i := i + 1;
      }
      assert items[..|items|] == items;
      return Success(out);
    }
    r := MapItemToDict(inData);
  }

  /** A list decodes exactly when every one of its entries does. */
  lemma {:induction false} FlattenSucceedsIffAll(items: seq<Xml>)
    ensures FlattenItems(items).Success? <==>
      forall i :: 0 <= i < |items| ==> MapItemToDict(items[i]).Success?
  {
    if items != [] {
      var n := |items| - 1;
      var front := items[..n];
      FlattenSucceedsIffAll(front);
      if FlattenItems(items).Success? {
        forall i | 0 <= i < |items| ensures MapItemToDict(items[i]).Success? {
          if i < n { assert front[i] == items[i]; }
        }
      } else if FlattenItems(front).Failure? {
        var i :| 0 <= i < |front| && !MapItemToDict(front[i]).Success?;
        assert front[i] == items[i];
      } else {
        assert !MapItemToDict(items[n]).Success?;
      }
    }
  }

  /** A failing list reports the error of its first failing entry. */
  lemma {:induction false} FlattenFirstError(items: seq<Xml>)
    requires FlattenItems(items).Failure?
    ensures exists i ::
      && 0 <= i < |items|
      && MapItemToDict(items[i]) == Failure(FlattenItems(items).error)
      && forall j :: 0 <= j < i ==> MapItemToDict(items[j]).Success?
  {
    var front := items[..|items| - 1];
    assert forall i :: 0 <= i < |front| ==> front[i] == items[i];
    if FlattenItems(front).Failure? {
      FlattenFirstError(front);
    } else {
      FlattenSucceedsIffAll(front);
      var i := |items| - 1;
      assert MapItemToDict(items[i]) == Failure(FlattenItems(items).error);
    }
  }

  /** Once a prefix of the list fails, the whole list fails with the same error. */
  lemma {:induction false} FlattenKeepsFailure(items: seq<Xml>, n: nat)
    requires n <= |items| && FlattenItems(items[..n]).Failure?
    ensures FlattenItems(items) == FlattenItems(items[..n])
  {
    if n < |items| {
      var front := items[..|items| - 1];
      assert front[..n] == items[..n];
      FlattenKeepsFailure(front, n);
    } else {
      assert items[..n] == items;
    }
  }

  /** The keys of a decoded list are exactly the keys of its entries. */
  lemma {:induction false} FlattenKeys(items: seq<Xml>)
    requires FlattenItems(items).Success?
    ensures forall k :: k in FlattenItems(items).value <==>
      exists i :: 0 <= i < |items| && k in ItemMap(items[i])
  {
    if items != [] {
      var n := |items| - 1;
      FlattenSplit(items);
      FlattenKeys(items[..n]);
      forall k
        ensures k in FlattenItems(items).value <==> exists i :: 0 <= i < |items| && k in ItemMap(items[i])
      {
        KeyInSomeEntry(items, items[..n], k);
      }
    }
  }

  /** A key is carried by some entry of a list iff by some entry of its front or by its last entry. */
  lemma KeyInSomeEntry(items: seq<Xml>, front: seq<Xml>, k: Xml)
    requires items != [] && front == items[..|items| - 1]
    ensures (exists i :: 0 <= i < |items| && k in ItemMap(items[i])) <==>
      (exists i :: 0 <= i < |front| && k in ItemMap(front[i])) || k in ItemMap(items[|items| - 1])
  {
    if exists i :: 0 <= i < |items| && k in ItemMap(items[i]) {
      var i :| 0 <= i < |items| && k in ItemMap(items[i]);
      if i < |front| { assert front[i] == items[i]; }
    }
    if exists i :: 0 <= i < |front| && k in ItemMap(front[i]) {
      var i :| 0 <= i < |front| && k in ItemMap(front[i]);
      assert front[i] == items[i];
    }
  }

  /** A decoded non-empty list is its front decoded, updated by its last entry. */
  lemma FlattenSplit(items: seq<Xml>)
    requires items != [] && FlattenItems(items).Success?
    ensures FlattenItems(items[..|items| - 1]).Success?
    ensures FlattenItems(items).value == FlattenItems(items[..|items| - 1]).value + ItemMap(items[|items| - 1])
  {
  }

  /** In a decoded list a key holds the value of the last entry that carries it. */
  lemma {:induction false} FlattenLastWins(items: seq<Xml>, i: nat, k: Xml)
    requires FlattenItems(items).Success?
    requires i < |items| && k in ItemMap(items[i])
    requires forall j :: i < j < |items| ==> k !in ItemMap(items[j])
    ensures k in FlattenItems(items).value && FlattenItems(items).value[k] == ItemMap(items[i])[k]
  {
    var n := |items| - 1;
    var front := items[..n];
    if i < n {
      assert k !in ItemMap(items[n]);
      assert front[i] == items[i];
      assert forall j :: i < j < |front| ==> front[j] == items[j];
      FlattenLastWins(front, i, k);
    }
  }
}
