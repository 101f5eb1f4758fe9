/**
 * The behaviour of the zod validation library that the request schemas rely on (zod 3):
 * issues with a path and a message, `safeParse` results, the default messages of
 * `invalid_type` and `unrecognized_keys`, `.strict()` objects and the `.uuid()` format.
 */
module Zod {
  import opened Wrappers
  import opened Text
  import opened Json

  /** A step of an issue's path: an object key or an array index. */
  datatype PathSegment = Key(name: string) | Index(position: nat)

  datatype Issue = Issue(path: seq<PathSegment>, message: string)

  /**
   * `schema.safeParse(data)`: `{success: true, data}` or `{success: false, error}`; `Raised` is
   * an exception that a coercion throws, which `safeParse` does not catch.
   */
  datatype SafeParseResult<T> = Parsed(data: T) | Rejected(issues: seq<Issue>) | Raised(description: string)

  /** zod's name for the type of an input (`getParsedType`); JSON numbers are never NaN. */
  function ParsedType(v: Option<Value>): string {
    match v
    case None => "undefined"
    case Some(JString(_)) => "string"
    case Some(JNumber(_)) => "number"
    case Some(JBool(_)) => "boolean"
    case Some(JNull) => "null"
    case Some(JArray(_)) => "array"
    case Some(JObject(_)) => "object"
  }

  /** zod's default message for an `invalid_type` issue. */
  function InvalidTypeMessage(expected: string, v: Option<Value>): (message: string)
    ensures message == "Required" <==> v.None?
    ensures v.Some? ==> StartsWith(message, "Expected " + expected)
    ensures v.Some? ==> message[|message| - |ParsedType(v)|..] == ParsedType(v)
  {
    if v.None? then "Required" else "Expected " + expected + ", received " + ParsedType(v)
  }

  function Quote(key: string): string {
    "'" + key + "'"
  }

  function QuoteAll(keys: seq<string>): (r: seq<string>)
    ensures |r| == |keys|
    ensures forall i :: 0 <= i < |keys| ==> r[i] == Quote(keys[i])
  {
    if keys == [] then [] else [Quote(keys[0])] + QuoteAll(keys[1..])
  }

  /** zod's default message for an `unrecognized_keys` issue. */
  function UnrecognizedKeysMessage(keys: seq<string>): (message: string)
    ensures StartsWith(message, UnrecognizedKeysPrefix)
    ensures keys != [] ==> OccursAt(message, Quote(keys[0]), |UnrecognizedKeysPrefix|)
    ensures keys != [] ==> var last := Quote(keys[|keys| - 1]);
      |last| <= |message| && message[|message| - |last|..] == last
  {
    var joined := Join(QuoteAll(keys), ", ");
    var message := UnrecognizedKeysPrefix + joined;
    assert message[|UnrecognizedKeysPrefix|..] == joined;
    message
  }

  const UnrecognizedKeysPrefix := "Unrecognized key(s) in object: "

  predicate Distinct(keys: seq<string>) {
    forall i, j :: 0 <= i < j < |keys| ==> keys[i] != keys[j]
  }

  /** Array-index keys come first, in ascending numeric order, and every other key after them. */
  predicate IndexKeysFirst(keys: seq<string>) {
    forall i, j :: 0 <= i < j < |keys| && IsArrayIndex(keys[j]) ==>
      IsArrayIndex(keys[i]) && NumeralValue(keys[i], 10) <= NumeralValue(keys[j], 10)
  }

  /** The keys of `keys` that are not array indices, in their order. */
  function PlainKeys(keys: seq<string>): seq<string> {
    if keys == [] then [] else (if IsArrayIndex(keys[0]) then [] else [keys[0]]) + PlainKeys(keys[1..])
  }

  /** The filter keeps exactly the keys that are not array indices. */
  lemma {:induction false} PlainKeysMembers(keys: seq<string>)
    ensures forall k :: k in PlainKeys(keys) <==> k in keys && !IsArrayIndex(k)
  {
    if keys != [] {
      PlainKeysMembers(keys[1..]);
      assert keys == [keys[0]] + keys[1..];
    }
  }

  /** Filtering a list that starts with `first`. */
  lemma PlainKeysCons(first: string, keys: seq<string>)
    ensures PlainKeys([first] + keys) == (if IsArrayIndex(first) then [] else [first]) + PlainKeys(keys)
  {
    assert ([first] + keys)[1..] == keys;
  }

  lemma {:induction false} PlainKeysAppend(a: seq<string>, b: seq<string>)
    ensures PlainKeys(a + b) == PlainKeys(a) + PlainKeys(b)
  {
    if a == [] {
      assert a + b == b;
    } else {
      assert (a + b)[1..] == a[1..] + b;
      PlainKeysAppend(a[1..], b);
    }
  }

  /** Where `k` first occurs in `keys`, or `|keys|` when it does not occur. */
  function FirstIndex(keys: seq<string>, k: string): (r: nat)
    ensures r <= |keys|
    ensures r < |keys| <==> k in keys
    ensures r < |keys| ==> keys[r] == k && k !in keys[..r]
  {
    if keys == [] then 0
    else if keys[0] == k then 0
    else
      var r := 1 + FirstIndex(keys[1..], k);
      assert keys[..r] == [keys[0]] + keys[1..][..r - 1];
      r
  }

  /** Appending a key moves no first occurrence; the appended key, when new, first occurs last. */
  lemma {:induction false} FirstIndexSnoc(keys: seq<string>, x: string, k: string)
    ensures k in keys ==> FirstIndex(keys + [x], k) == FirstIndex(keys, k)
    ensures k !in keys && k == x ==> FirstIndex(keys + [x], k) == |keys|
  {
    if keys != [] && keys[0] != k {
      assert (keys + [x])[1..] == keys[1..] + [x];
      assert k in keys ==> k in keys[1..];
      FirstIndexSnoc(keys[1..], x, k);
    }
  }

  /** `ks` lists keys by increasing position of their first occurrence in `keys`. */
  predicate InFirstOccurrenceOrder(ks: seq<string>, keys: seq<string>) {
    forall i, j :: 0 <= i < j < |ks| ==> FirstIndex(keys, ks[i]) < FirstIndex(keys, ks[j])
  }

  /** Keys that already occur keep their order when another key is appended. */
  lemma InOrderSnoc(ks: seq<string>, keys: seq<string>, x: string)
    requires InFirstOccurrenceOrder(ks, keys)
    requires forall k :: k in ks ==> k in keys
    ensures InFirstOccurrenceOrder(ks, keys + [x])
  {
    forall i, j | 0 <= i < j < |ks|
      ensures FirstIndex(keys + [x], ks[i]) < FirstIndex(keys + [x], ks[j])
    {
      FirstIndexSnoc(keys, x, ks[i]);
      FirstIndexSnoc(keys, x, ks[j]);
    }
  }

  /** A key that first occurs last can follow keys that occur before it. */
  lemma InOrderAppendNew(ks: seq<string>, keys: seq<string>, x: string)
    requires InFirstOccurrenceOrder(ks, keys)
    requires forall k :: k in ks ==> k in keys
    requires x !in keys
    ensures InFirstOccurrenceOrder(ks + [x], keys + [x])
  {
    InOrderSnoc(ks, keys, x);
    FirstIndexSnoc(keys, x, x);
    var r := ks + [x];
    forall i, j | 0 <= i < j < |r|
      ensures FirstIndex(keys + [x], r[i]) < FirstIndex(keys + [x], r[j])
    {
      assert r[i] == ks[i];
      if j < |ks| {
        assert r[j] == ks[j];
      } else {
        FirstIndexSnoc(keys, x, ks[i]);
      }
    }
  }

  /** Places an array-index key after the index keys whose value does not exceed its own. */
  function InsertIndexKey(keys: seq<string>, key: string): (r: seq<string>)
    requires IsArrayIndex(key) && IndexKeysFirst(keys)
    ensures |r| == |keys| + 1
    ensures forall k :: k in r <==> k in keys || k == key
    ensures Distinct(keys) && key !in keys ==> Distinct(r)
    ensures IndexKeysFirst(r)
  {
    if keys == [] then [key]
    else
      IndexKeysFirstTail(keys);
      if !IsArrayIndex(keys[0]) || NumeralValue(key, 10) < NumeralValue(keys[0], 10) then
        IndexKeysFirstCons(key, keys);
        [key] + keys
      else
        var rest := InsertIndexKey(keys[1..], key);
        assert forall k :: k in keys[1..] ==> k in keys;
        IndexKeysFirstCons(keys[0], rest);
        DistinctCons(keys, key, rest);
        [keys[0]] + rest
  }

  /** Inserting an index key leaves the other keys as they were, in their order. */
  lemma {:induction false} InsertIndexKeyPlain(keys: seq<string>, key: string)
    requires IsArrayIndex(key) && IndexKeysFirst(keys)
    ensures PlainKeys(InsertIndexKey(keys, key)) == PlainKeys(keys)
  {
    if keys == [] {
      PlainKeysCons(key, []);
    } else {
      IndexKeysFirstTail(keys);
      var r := InsertIndexKey(keys, key);
      if !IsArrayIndex(keys[0]) || NumeralValue(key, 10) < NumeralValue(keys[0], 10) {
        assert r == [key] + keys;
        PlainKeysCons(key, keys);
      } else {
        var rest := InsertIndexKey(keys[1..], key);
        assert r == [keys[0]] + rest;
        InsertIndexKeyPlain(keys[1..], key);
        SamePlainKeysAfter(keys[0], keys[1..], rest);
        assert keys == [keys[0]] + keys[1..];
      }
    }
  }

  /** Lists whose filtered keys agree still agree with the same key in front. */
  lemma SamePlainKeysAfter(first: string, a: seq<string>, b: seq<string>)
    requires PlainKeys(a) == PlainKeys(b)
    ensures PlainKeys([first] + a) == PlainKeys([first] + b)
  {
    PlainKeysCons(first, a);
    PlainKeysCons(first, b);
  }

  /** The first key, distinct from the rest and from the inserted key, can lead the result. */
  lemma DistinctCons(keys: seq<string>, key: string, rest: seq<string>)
    requires keys != []
    requires forall k :: k in rest <==> k in keys[1..] || k == key
    requires Distinct(keys) && key !in keys ==> Distinct(rest)
    ensures Distinct(keys) && key !in keys ==> Distinct([keys[0]] + rest)
  {
    if Distinct(keys) && key !in keys {
      assert keys[0] !in keys[1..] by {
        forall j | 0 <= j < |keys| - 1 ensures keys[1..][j] != keys[0] {
          assert keys[1..][j] == keys[j + 1];
        }
      }
      var r := [keys[0]] + rest;
      forall i, j | 0 <= i < j < |r| ensures r[i] != r[j] {
        assert r[j] == rest[j - 1] && r[j] in rest;
        if i > 0 {
          assert r[i] == rest[i - 1];
        }
      }
    }
  }

  /** Every index key after the first key is bounded below by it, and the tail keeps the order. */
  lemma IndexKeysFirstTail(keys: seq<string>)
    requires keys != [] && IndexKeysFirst(keys)
    ensures IndexKeysFirst(keys[1..])
    ensures forall k :: k in keys && IsArrayIndex(k) ==>
      IsArrayIndex(keys[0]) && NumeralValue(keys[0], 10) <= NumeralValue(k, 10)
  {
    forall k | k in keys && IsArrayIndex(k)
      ensures IsArrayIndex(keys[0]) && NumeralValue(keys[0], 10) <= NumeralValue(k, 10)
    {
      var j :| 0 <= j < |keys| && keys[j] == k;
      if j > 0 {
        assert IsArrayIndex(keys[j]);
      }
    }
  }

  /** A key that precedes every index key of an ordered list, by value, can lead it. */
  lemma IndexKeysFirstCons(first: string, keys: seq<string>)
    requires IndexKeysFirst(keys)
    requires forall k :: k in keys && IsArrayIndex(k) ==>
      IsArrayIndex(first) && NumeralValue(first, 10) <= NumeralValue(k, 10)
    ensures IndexKeysFirst([first] + keys)
  {
    var r := [first] + keys;
    forall i, j | 0 <= i < j < |r| && IsArrayIndex(r[j])
      ensures IsArrayIndex(r[i]) && NumeralValue(r[i], 10) <= NumeralValue(r[j], 10)
    {
      assert r[j] == keys[j - 1] && r[j] in keys;
      if i > 0 {
        assert r[i] == keys[i - 1];
      }
    }
  }

  /**
   * The keys of an object that a shape does not declare, each once, in the order `for…in`
   * visits the object's properties: array-index keys first, ascending, then the other keys in
   * the order they first occur.
   */
  function UnknownKeys(members: seq<(string, Value)>, shape: seq<string>): (extra: seq<string>)
    ensures forall k :: k in extra <==> k in Keys(members) && k !in shape
    ensures Distinct(extra)
    ensures IndexKeysFirst(extra)
  {
    if members == [] then []
    else
      var init := members[..|members| - 1];
      var key := members[|members| - 1].0;
      var rest := UnknownKeys(init, shape);
      assert members == init + [members[|members| - 1]];
      KeysSnoc(init, members[|members| - 1]);
      if key in shape || key in Keys(init) then rest
      else
        assert key !in rest;
        if IsArrayIndex(key) then InsertIndexKey(rest, key)
        else
          AppendPlainKey(rest, key);
          rest + [key]
  }

  /**
   * The keys that are not array indices keep the order of their first occurrence in the object:
   * `{"b": …, "a": …}` reports `b` before `a`.
   */
  lemma {:induction false} UnknownKeysOrder(members: seq<(string, Value)>, shape: seq<string>)
    ensures InFirstOccurrenceOrder(PlainKeys(UnknownKeys(members, shape)), Keys(members))
  {
    if members != [] {
      var init := members[..|members| - 1];
      var key := members[|members| - 1].0;
      var rest := UnknownKeys(init, shape);
      UnknownKeysOrder(init, shape);
      assert members == init + [members[|members| - 1]];
      KeysSnoc(init, members[|members| - 1]);
      PlainKeysMembers(rest);
      InOrderSnoc(PlainKeys(rest), Keys(init), key);
      if key !in shape && key !in Keys(init) {
        if IsArrayIndex(key) {
          InsertIndexKeyPlain(rest, key);
        } else {
          PlainKeysAppend(rest, [key]);
          assert PlainKeys([key]) == [key];
          InOrderAppendNew(PlainKeys(rest), Keys(init), key);
        }
      }
    }
  }

  /** A key that is not an array index can be appended, keeping the order and distinctness. */
  lemma AppendPlainKey(keys: seq<string>, key: string)
    requires IndexKeysFirst(keys) && Distinct(keys) && key !in keys && !IsArrayIndex(key)
    ensures IndexKeysFirst(keys + [key]) && Distinct(keys + [key])
  {
    var r := keys + [key];
    forall i, j | 0 <= i < j < |r| ensures r[i] != r[j] {
      assert r[i] == keys[i];
      if j < |keys| { assert r[j] == keys[j]; }
    }
    forall i, j | 0 <= i < j < |r| && IsArrayIndex(r[j])
      ensures IsArrayIndex(r[i]) && NumeralValue(r[i], 10) <= NumeralValue(r[j], 10)
    {
      assert j < |keys|;
      assert r[i] == keys[i] && r[j] == keys[j];
    }
  }

  /** For `{"x": …, "0": …}` the index key `0` is reported before `x`, although it comes second. */
  lemma IndexKeyReportedFirst()
    ensures UnknownKeys([("x", JNull), ("0", JNull)], BodyKeys) == ["0", "x"]
  {
    var members := [("x", JNull), ("0", JNull)];
    var init := members[..1];
    assert init == [("x", JNull)];
    assert members == init + [("0", JNull)];
    KeysSnoc(init, ("0", JNull));
    ZeroIsArrayIndex();
    SingleUnknownKey();
    assert "0" !in BodyKeys;
    assert InsertIndexKey(["x"], "0") == ["0", "x"] by { assert !IsArrayIndex("x") by { assert !IsDigit('x'); } }
  }

  const BodyKeys := ["name", "age", "cpf"]

  lemma ZeroIsArrayIndex()
    ensures IsArrayIndex("0")
  {
    assert NumeralValue("0", 10) == 0 by { assert "0"[..0] == []; }
  }

  lemma SingleUnknownKey()
    ensures Keys([("x", JNull)]) == ["x"]
    ensures UnknownKeys([("x", JNull)], BodyKeys) == ["x"]
  {
    var members := [("x", JNull)];
    assert members[..0] == [];
    assert !IsArrayIndex("x") by { assert !IsDigit('x'); }
    assert "x" !in BodyKeys;
  }

  /** The issue `.strict()` adds, at the object's own (empty) path, when undeclared keys are present. */
  function StrictIssues(members: seq<(string, Value)>, shape: seq<string>): (issues: seq<Issue>)
    ensures issues == [] <==> forall i :: 0 <= i < |members| ==> members[i].0 in shape
    ensures forall i :: 0 <= i < |issues| ==> issues[i].path == []
  {
    var extra := UnknownKeys(members, shape);
    UnknownKeysEmpty(members, shape);
    if extra == [] then [] else [Issue([], UnrecognizedKeysMessage(extra))]
  }

  /** No key is undeclared exactly when every member's key is in the shape. */
  lemma UnknownKeysEmpty(members: seq<(string, Value)>, shape: seq<string>)
    ensures UnknownKeys(members, shape) == [] <==> forall i :: 0 <= i < |members| ==> members[i].0 in shape
  {
    var extra := UnknownKeys(members, shape);
    if extra != [] {
      assert extra[0] in extra;
    }
    if i :| 0 <= i < |members| && members[i].0 !in shape {
      assert Keys(members)[i] == members[i].0;
    }
  }

  /** The `.uuid()` format: 8-4-4-4-12 hexadecimal digits in either case, hyphen separated. */
  predicate IsUuid(s: string) {
    && |s| == 36
    && forall i :: 0 <= i < 36 ==>
         if i == 8 || i == 13 || i == 18 || i == 23 then s[i] == '-' else IsHexDigit(s[i])
  }
}
