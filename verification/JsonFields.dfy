/** Members and tables of stored documents, shared by the decoders. */
module JsonFields {
  import opened Support
  import opened Sequences

  function Field(node: Json, key: Key): Option<Json> {
    if node.JObject? && key in node.fields then Some(node.fields[key]) else None
  }

  function NumberIn(field: Option<Json>): Result<real> {
    if field.Some? && field.value.JNumber? then Ok(field.value.x) else Err(CorruptData)
  }

  function ArrayIn(field: Option<Json>): Result<seq<Json>> {
    if field.Some? && field.value.JArray? then Ok(field.value.items) else Err(CorruptData)
  }

  // ----- tables

  function EncodeAll<T>(items: seq<T>, encode: T -> Json): (trees: seq<Json>)
    ensures |trees| == |items| && forall i :: 0 <= i < |items| ==> trees[i] == encode(items[i])
  {
    seq(|items|, i requires 0 <= i < |items| => encode(items[i]))
  }

  /** Decodes every item, or fails as the first undecodable one does. */
  function DecodeAll<T>(items: seq<Json>, decode: Json -> Result<T>): Result<seq<T>> {
    if items == [] then Ok([]) else
      var before :- DecodeAll(items[..|items| - 1], decode);
      var last :- decode(Last(items));
      Ok(before + [last])
  }

  lemma {:induction false} FirstFailureWins<T>(items: seq<Json>, decode: Json -> Result<T>, n: nat)
    requires n <= |items| && DecodeAll(items[..n], decode).Err?
    ensures DecodeAll(items, decode) == DecodeAll(items[..n], decode)
  {
    if n == |items| {
      assert items[..n] == items;
    } else {
      assert items[..|items| - 1][..n] == items[..n];
      FirstFailureWins(items[..|items| - 1], decode, n);
    }
  }

  method DecodeItems<T>(items: seq<Json>, decode: Json -> Result<T>) returns (decoded: Result<seq<T>>)
    ensures decoded == DecodeAll(items, decode)
  {
    var done: seq<T> := [];
    for i := 0 to |items|
      invariant DecodeAll(items[..i], decode) == Ok(done)
    {
      assert items[..i + 1][..i] == items[..i];
      var item := decode(items[i]);
      if item.Err? {
        FirstFailureWins(items, decode, i + 1);
        return Err(item.code);
      }
      done := done + [item.value];
    }
    assert items[..|items|] == items;
    decoded := Ok(done);
  }

  lemma {:induction false} ReadAll<T>(items: seq<T>, encode: T -> Json, decode: Json -> Result<T>)
    requires forall i :: 0 <= i < |items| ==> decode(encode(items[i])) == Ok(items[i])
    ensures DecodeAll(EncodeAll(items, encode), decode) == Ok(items)
  {
    if items != [] {
      var before, trees := items[..|items| - 1], EncodeAll(items, encode);
      ReadAll(before, encode, decode);
      assert trees[..|trees| - 1] == EncodeAll(before, encode);
      assert items == before + [Last(items)];
    }
  }

  lemma {:induction false} DecodedCount<T>(items: seq<Json>, decode: Json -> Result<T>)
    requires DecodeAll(items, decode).Ok?
    ensures |DecodeAll(items, decode).value| == |items|
  {
    if items != [] {
      DecodedCount(items[..|items| - 1], decode);
    }
  }
}
