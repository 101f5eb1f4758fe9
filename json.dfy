/**
 * The values a request carries once the HTTP framework has parsed it: a JSON body and the
 * route parameters. `None` in `Option<Value>` stands for JavaScript's `undefined`.
 */
module Json {
  import opened Wrappers
  import opened Text

  datatype Value =
    | JString(s: string)
    | JNumber(n: real)      // a literal that overflows to ±Infinity is not modelled
    | JBool(b: bool)
    | JNull
    | JArray(items: seq<Value>)
    | JObject(members: seq<(string, Value)>)

  /**
   * A key that is an array index: the canonical decimal form (no leading zero except `0` itself)
   * of an integer below 2^32 - 1. An ordinary object lists such keys first, in ascending numeric
   * order, and its other string keys after them in the order they were created.
   */
  predicate IsArrayIndex(key: string) {
    && key != [] && AllDigits(key)
    && (key[0] != '0' || key == "0")
    && NumeralValue(key, 10) < 0xFFFF_FFFF
  }

  /**
   * Property access `object[key]` on an object built by `JSON.parse`: when a key is repeated the
   * last member wins, so the value is that of the last member named `key`; `undefined` if none.
   */
  function Get(members: seq<(string, Value)>, key: string): (r: Option<Value>)
    ensures r.None? <==> forall i :: 0 <= i < |members| ==> members[i].0 != key
    ensures r.Some? ==> exists i :: 0 <= i < |members| && members[i] == (key, r.value) && LastWith(members, key, i)
  {
    if members == [] then None
    else if members[|members| - 1].0 == key then Some(members[|members| - 1].1)
    else
      var init, last := members[..|members| - 1], members[|members| - 1];
      var r := Get(init, key);
      assert members == init + [last];
      LastWithSnoc(init, last, key, r);
      r
  }

  lemma LastWithSnoc(init: seq<(string, Value)>, last: (string, Value), key: string, r: Option<Value>)
    requires last.0 != key
    requires r.Some? ==> exists i :: 0 <= i < |init| && init[i] == (key, r.value) && LastWith(init, key, i)
    ensures r.Some? ==>
      exists i :: 0 <= i < |init + [last]| && (init + [last])[i] == (key, r.value) && LastWith(init + [last], key, i)
  {
    if r.Some? {
      var i :| 0 <= i < |init| && init[i] == (key, r.value) && LastWith(init, key, i);
      assert (init + [last])[i] == (key, r.value) && LastWith(init + [last], key, i);
    }
  }

  /** A repeated key reads as its last value: `{"k": 1, "k": 2}.k` is 2. */
  lemma GetLastWins(members: seq<(string, Value)>, key: string, value: Value)
    ensures Get(members + [(key, value)], key) == Some(value)
  {
  }

  /** No member after position `i` is named `key`. */
  predicate LastWith(members: seq<(string, Value)>, key: string, i: nat) {
    forall j :: i < j < |members| ==> members[j].0 != key
  }

  /** The keys of an object, in member order (`Object.keys`). */
  function Keys(members: seq<(string, Value)>): (keys: seq<string>)
    ensures |keys| == |members|
    ensures forall i :: 0 <= i < |members| ==> keys[i] == members[i].0
  {
    if members == [] then [] else [members[0].0] + Keys(members[1..])
  }

  /** Appending a member appends its key. */
  lemma KeysSnoc(init: seq<(string, Value)>, last: (string, Value))
    ensures Keys(init + [last]) == Keys(init) + [last.0]
  {
  }
}
