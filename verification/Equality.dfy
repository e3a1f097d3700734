/** When two values are the same to a caller, and which values reading back changes. */
module Equality {
  import opened Text
  import opened OrderedMap
  import opened Values
  import opened RoundTrip
  import Base64

  /** A value without the base64 text that binary data may carry along. */
  function Plain(v: Value): Value
    decreases v
  {
    match v
    case Binary(data, _) => Binary(data, "")
    case Struct(ms) => Struct(PlainMembers(ms))
    case Array(vs) => Array(PlainItems(vs))
    case _ => v
  }

  function PlainMembers(ms: seq<Entry<Value>>): seq<Entry<Value>>
    decreases ms
  {
    if ms == [] then [] else [Entry(ms[0].key, Plain(ms[0].value))] + PlainMembers(ms[1..])
  }

  function PlainItems(vs: seq<Value>): seq<Value>
    decreases vs
  {
    if vs == [] then [] else [Plain(vs[0])] + PlainItems(vs[1..])
  }

  /** No string in the value is blank. */
  predicate StringsReadable(v: Value) {
    match v
    case Str(s) => !Blank(s)
    case Struct(ms) => forall i :: 0 <= i < |ms| ==> StringsReadable(ms[i].value)
    case Array(vs) => forall i :: 0 <= i < |vs| ==> StringsReadable(vs[i])
    case _ => true
  }

  /** Reading back changes a value exactly where it has blank strings. */
  lemma {:induction false} ReparsedEqual(o: Options, v: Value)
    requires Regular(o, v)
    ensures Plain(Reparsed(v)) == Plain(v) <==> StringsReadable(v)
    decreases v, 1
  {
    match v
    case Struct(ms) => ReparsedMembersEqual(o, ms);
    case Array(vs) => ReparsedItemsEqual(o, vs);
    case Binary(data, text) =>
      if AllXmlSpace(BinaryText(data, text)) {
        Base64.StripSpace(BinaryText(data, text));
        Base64.RoundTrip(data);
      }
    case _ =>
  }

  lemma {:induction false} ReparsedMembersEqual(o: Options, ms: seq<Entry<Value>>)
    requires forall i :: 0 <= i < |ms| ==> Regular(o, ms[i].value)
    ensures PlainMembers(ReparsedMembers(ms)) == PlainMembers(ms) <==>
            forall i :: 0 <= i < |ms| ==> StringsReadable(ms[i].value)
    decreases ms, 0
  {
    if ms != [] {
      ReparsedEqual(o, ms[0].value);
      ReparsedMembersEqual(o, ms[1..]);
      var r := ReparsedMembers(ms);
      assert r[0] == Entry(ms[0].key, Reparsed(ms[0].value)) && r[1..] == ReparsedMembers(ms[1..]);
      assert PlainMembers(r)[0] == Entry(ms[0].key, Plain(Reparsed(ms[0].value)));
      assert PlainMembers(r)[1..] == PlainMembers(r[1..]) && PlainMembers(ms)[1..] == PlainMembers(ms[1..]);
      forall i | 1 <= i < |ms| ensures ms[i] == ms[1..][i - 1] {
      }
    }
  }

  lemma {:induction false} ReparsedItemsEqual(o: Options, vs: seq<Value>)
    requires forall i :: 0 <= i < |vs| ==> vs[i].Nil? || Regular(o, vs[i])
    ensures PlainItems(ReparsedItems(vs)) == PlainItems(vs) <==>
            forall i :: 0 <= i < |vs| ==> StringsReadable(vs[i])
    decreases vs, 0
  {
    if vs != [] {
      ReparsedEqual(o, vs[0]);
      ReparsedItemsEqual(o, vs[1..]);
      var r := ReparsedItems(vs);
      assert r[0] == Reparsed(vs[0]) && r[1..] == ReparsedItems(vs[1..]);
      assert PlainItems(r)[0] == Plain(r[0]);
      assert PlainItems(r)[1..] == PlainItems(r[1..]) && PlainItems(vs)[1..] == PlainItems(vs[1..]);
      forall i | 1 <= i < |vs| ensures vs[i] == vs[1..][i - 1] {
      }
    }
  }

  lemma {:induction false} PlainLength(ps: seq<Value>)
    ensures |PlainItems(ps)| == |ps|
  {
    if ps != [] {
      PlainLength(ps[1..]);
    }
  }
}
