/**
 * The query string as `URLSearchParams` holds it: an ordered list of decoded
 * name/value pairs, read with `get` (first pair with the name) and turned back
 * into text with `toString()` (form-encoded `name=value` pairs joined by `&`).
 */
module Query {
  import opened Wrappers
  import opened Strings
  import opened Encoding

  /** One decoded `name=value` pair. */
  type Param = (string, string)

  /** `searchParams.get(name)`: the value of the first pair called `name`. */
  function Get(params: seq<Param>, name: string): (r: Option<string>)
    ensures r.None? <==> forall i :: 0 <= i < |params| ==> params[i].0 != name
    ensures r.Some? ==> exists i :: 0 <= i < |params| && params[i] == (name, r.value)
  {
    if params == [] then None
    else if params[0].0 == name then Some(params[0].1)
    else
      var r := Get(params[1..], name);
      assert r.Some? ==> exists i :: 0 <= i < |params| - 1 && params[1..][i] == (name, r.value);
      r
  }

  /** One pair as the serializer writes it. */
  function EncodePair(p: Param): string
  {
    FormEncode(p.0) + "=" + FormEncode(p.1)
  }

  /** Every pair, encoded, in order. */
  function EncodePairs(params: seq<Param>): (pieces: seq<string>)
    ensures |pieces| == |params|
    ensures forall i :: 0 <= i < |params| ==> pieces[i] == EncodePair(params[i])
  {
    if params == [] then [] else [EncodePair(params[0])] + EncodePairs(params[1..])
  }

  /** `searchParams.toString()`. */
  function Serialize(params: seq<Param>): string
  {
    if params == [] then "" else Join(EncodePairs(params), '&')
  }

  /** An encoded pair holds no `&`, and exactly one `=`, between the encoded name and value. */
  lemma EncodePairShape(p: Param)
    ensures '&' !in EncodePair(p)
    ensures Split(EncodePair(p), '=') == [FormEncode(p.0), FormEncode(p.1)]
  {
    FormEncodeNoSeparators(p.0);
    FormEncodeNoSeparators(p.1);
    SplitJoin([FormEncode(p.0), FormEncode(p.1)], '=');
    assert Join([FormEncode(p.0), FormEncode(p.1)], '=') == EncodePair(p);
  }

  /**
   * The serialized query reads back unambiguously: split on `&` it gives one
   * piece per pair, in order, and each piece split on `=` gives exactly the
   * encoded name and the encoded value.
   */
  lemma SerializeSplits(params: seq<Param>)
    requires params != []
    ensures Split(Serialize(params), '&') == EncodePairs(params)
    ensures forall i :: 0 <= i < |params| ==>
      Split(Split(Serialize(params), '&')[i], '=') == [FormEncode(params[i].0), FormEncode(params[i].1)]
  {
    var pieces := EncodePairs(params);
    forall i | 0 <= i < |pieces| ensures '&' !in pieces[i] {
      EncodePairShape(params[i]);
    }
    SplitJoin(pieces, '&');
    forall i | 0 <= i < |params|
      ensures Split(pieces[i], '=') == [FormEncode(params[i].0), FormEncode(params[i].1)]
    {
      EncodePairShape(params[i]);
    }
  }

  /** Where `Get` finds its value: the first pair with the name. */
  lemma {:induction false} FirstIndexOf(params: seq<Param>, name: string) returns (i: nat)
    requires Get(params, name).Some?
    ensures i < |params| && params[i] == (name, Get(params, name).value)
    ensures forall j :: 0 <= j < i ==> params[j].0 != name
  {
    if params[0].0 == name {
      i := 0;
    } else {
      var k := FirstIndexOf(params[1..], name);
      i := k + 1;
    }
  }

  /** A pair preceded by no other pair of its name is the one `Get` returns. */
  lemma {:induction false} GetAt(params: seq<Param>, name: string, i: nat)
    requires i < |params| && params[i].0 == name
    requires forall j :: 0 <= j < i ==> params[j].0 != name
    ensures Get(params, name) == Some(params[i].1)
  {
    if i > 0 {
      GetAt(params[1..], name, i - 1);
    }
  }

  /** A two-pair query is the two pairs, encoded, joined by `&`. */
  lemma SerializeTwo(a: Param, b: Param)
    ensures Serialize([a, b]) == EncodePair(a) + "&" + EncodePair(b)
  {
    var pieces := EncodePairs([a, b]);
    assert pieces == [EncodePair(a), EncodePair(b)];
    assert pieces[1..] == [EncodePair(b)];
    assert Join(pieces, '&') == EncodePair(a) + ['&'] + Join([EncodePair(b)], '&');
  }

  /** A one-pair query is that pair, encoded. */
  lemma SerializeOne(name: string, value: string)
    ensures Serialize([(name, value)]) == FormEncode(name) + "=" + FormEncode(value)
  {
    assert EncodePairs([(name, value)]) == [EncodePair((name, value))];
  }
}
