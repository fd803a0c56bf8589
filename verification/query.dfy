/**
  Parsing of the connection's query string into a key-to-value dictionary,
  as the Socket.IO connect handler does it: split on `&`, split each item on
  `=`, take the first piece as key and the second as value, later items
  overwriting earlier ones with the same key.
 */
module Query {

  import opened Wrappers
  import opened PyStr

  /** The key of an item: the text before its first `=` (all of it when there is none). */
  function Key(item: string): string
  {
    Split(item, '=')[0]
  }

  /** The item has a second `=`-separated piece, so taking its value does not raise. */
  predicate HasValue(item: string)
  {
    |Split(item, '=')| >= 2
  }

  /** The value of an item: the text between its first and second `=`. */
  function Value(item: string): string
    requires HasValue(item)
  {
    Split(item, '=')[1]
  }

  /**
    The dictionary comprehension over the items, in order: an item without a
    value raises `IndexError`, and otherwise its key is bound to its value,
    replacing what an earlier item bound.
   */
  function ParseItems(items: seq<string>): (r: Result<map<string, string>, PyError>)
    ensures r.Err? ==> r.error == IndexError
  {
    if |items| == 0 then Ok(map[])
    else
      var last := items[|items| - 1];
      match ParseItems(items[..|items| - 1])
      case Err(e) => Err(e)
      case Ok(m) =>
        if HasValue(last) then Ok(m[Key(last) := Value(last)]) else Err(IndexError)
  }

  /** The query string split on `&` and parsed item by item. */
  function ParseQuery(qs: string): (r: Result<map<string, string>, PyError>)
    ensures r.Err? ==> r.error == IndexError
  {
    ParseItems(Split(qs, '&'))
  }

  /**
    Key and value are the text before the first `=` and the text between the
    first and the second `=`; an item has a value exactly when it holds `=`.
   */
  lemma ItemFields(item: string)
    ensures HasValue(item) <==> '=' in item
    ensures HasValue(item) ==>
      exists rest: string ::
        && item == Key(item) + "=" + Value(item) + rest
        && '=' !in Key(item) && '=' !in Value(item)
        && (rest == [] || rest[0] == '=')
  {
    SplitFirstTwo(item, '=');
  }

  /** Parsing fails exactly when some item has no `=`-separated value. */
  lemma {:induction false} ParseItemsOk(items: seq<string>)
    ensures ParseItems(items).Ok? <==> forall i :: 0 <= i < |items| ==> HasValue(items[i])
    ensures ParseItems(items).Err? ==> ParseItems(items).error == IndexError
  {
    if |items| > 0 {
      var before := items[..|items| - 1];
      ParseItemsOk(before);
      assert forall i :: 0 <= i < |before| ==> before[i] == items[i];
    }
  }

  /** The parsed dictionary has exactly the items' keys. */
  lemma {:induction false} ParseItemsKeys(items: seq<string>)
    requires ParseItems(items).Ok?
    ensures forall k :: k in ParseItems(items).value <==>
      exists i :: 0 <= i < |items| && Key(items[i]) == k
  {
    if |items| > 0 {
      var before := items[..|items| - 1];
      ParseItemsKeys(before);
      assert forall i :: 0 <= i < |before| ==> before[i] == items[i];
      var m := ParseItems(items).value;
      forall k ensures k in m <==> exists i :: 0 <= i < |items| && Key(items[i]) == k {
        if k in m && k != Key(items[|items| - 1]) {
          var i :| 0 <= i < |before| && Key(before[i]) == k;
          assert Key(items[i]) == k;
        }
      }
    }
  }

  /** The value bound to a key is the value of the last item carrying that key. */
  lemma {:induction false} ParseItemsLastWins(items: seq<string>, i: int)
    requires ParseItems(items).Ok?
    requires 0 <= i < |items|
    requires forall j :: i < j < |items| ==> Key(items[j]) != Key(items[i])
    ensures HasValue(items[i])
    ensures Key(items[i]) in ParseItems(items).value
    ensures ParseItems(items).value[Key(items[i])] == Value(items[i])
  {
    ParseItemsOk(items);
    if i < |items| - 1 {
      var before := items[..|items| - 1];
      assert before[i] == items[i];
      forall j | i < j < |before| ensures Key(before[j]) != Key(before[i]) {
        assert before[j] == items[j];
      }
      ParseItemsLastWins(before, i);
    }
  }

  /** A query parses exactly when every `&`-separated item holds a `=`. */
  lemma {:induction false} QueryOk(qs: string)
    ensures ParseQuery(qs).Ok? <==> AllItemsHaveEquals(Split(qs, '&'))
    ensures ParseQuery(qs).Err? ==> ParseQuery(qs).error == IndexError
  {
    var items := Split(qs, '&');
    assert ParseQuery(qs) == ParseItems(items);
    ParseItemsOk(items);
    forall i | 0 <= i < |items| ensures HasValue(items[i]) <==> '=' in items[i] {
      ItemFields(items[i]);
    }
    assert (forall i :: 0 <= i < |items| ==> HasValue(items[i]))
      <==> (forall i :: 0 <= i < |items| ==> '=' in items[i]);
  }

  /** Every item holds a `=`. */
  predicate AllItemsHaveEquals(items: seq<string>)
  {
    forall i :: 0 <= i < |items| ==> '=' in items[i]
  }

  /** The empty query string is one empty item, which has no value: parsing raises. */
  lemma EmptyQueryRaises()
    ensures ParseQuery("") == Err(IndexError)
  {
  }

  /** The worked example's query splits into three items. */
  lemma ExampleItems()
    ensures Split("k=a&v=1=2&k=b", '&') == ["k=a", "v=1=2", "k=b"]
  {
    assert Join(["k=b"], '&') == "k=b";
    assert Join(["v=1=2", "k=b"], '&') == "v=1=2&k=b";
    assert Join(["k=a", "v=1=2", "k=b"], '&') == "k=a&v=1=2&k=b";
    SplitUnique("k=a&v=1=2&k=b", '&', ["k=a", "v=1=2", "k=b"]);
  }

  /** The pieces of the worked example's three items. */
  lemma ExampleFields()
    ensures Key("k=a") == "k" && HasValue("k=a") && Value("k=a") == "a"
    ensures Key("v=1=2") == "v" && HasValue("v=1=2") && Value("v=1=2") == "1"
    ensures Key("k=b") == "k" && HasValue("k=b") && Value("k=b") == "b"
  {
  }

  /** The worked example's items, parsed one prefix at a time. */
  lemma ExampleParsedItems()
    ensures ParseItems(["k=a"]) == Ok(map["k" := "a"])
    ensures ParseItems(["k=a", "v=1=2"]) == Ok(map["k" := "a", "v" := "1"])
    ensures ParseItems(["k=a", "v=1=2", "k=b"]) == Ok(map["k" := "b", "v" := "1"])
  {
    ExampleFields();
    assert ["k=a"][..0] == [];
    assert ["k=a", "v=1=2"][..1] == ["k=a"];
    assert ["k=a", "v=1=2", "k=b"][..2] == ["k=a", "v=1=2"];
    assert map["k" := "a", "v" := "1"]["k" := "b"] == map["k" := "b", "v" := "1"];
  }

  /** A worked example: the value stops at the second `=`, and the later `k` wins. */
  lemma ParseExample()
    ensures ParseQuery("k=a&v=1=2&k=b") == Ok(map["k" := "b", "v" := "1"])
  {
    ExampleItems();
    ExampleParsedItems();
  }
}
