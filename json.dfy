/**
 * JavaScript values as the JSON-handling code sees them: what `req.json()`
 * yields, what `JSON.stringify` is given, and plain objects whose properties are
 * read and assigned. Numbers are integers here.
 */
module Js {
  import Numerals
  import Strings

  datatype JsVal =
    | Undefined
    | Null
    | Bool(b: bool)
    | Num(n: int)
    | Str(s: string)
    | Arr(items: seq<JsVal>)
    | Obj(fields: seq<(string, JsVal)>)   // own properties in insertion order

  /** JavaScript truthiness: `undefined`, `null`, `false`, `0` and `""` are falsy. */
  predicate Truthy(v: JsVal) {
    match v
    case Undefined => false
    case Null => false
    case Bool(b) => b
    case Num(n) => n != 0
    case Str(s) => s != []
    case _ => true
  }

  /** `typeof v === "object" && v !== null`. */
  predicate IsObject(v: JsVal) {
    v.Arr? || v.Obj?
  }

  /** Position of `key` among the properties, or -1. */
  function KeyIndex(fields: seq<(string, JsVal)>, key: string): (i: int)
    ensures -1 <= i < |fields|
    ensures i == -1 <==> forall j :: 0 <= j < |fields| ==> fields[j].0 != key
    ensures 0 <= i ==> fields[i].0 == key && forall j :: 0 <= j < i ==> fields[j].0 != key
  {
    if fields == [] then -1
    else if fields[0].0 == key then 0
    else
      var k := KeyIndex(fields[1..], key);
      if k == -1 then -1 else k + 1
  }

  /** Property access `v[key]`: `undefined` when absent or when `v` is not an object. */
  function Get(v: JsVal, key: string): JsVal {
    if v.Obj? && KeyIndex(v.fields, key) >= 0 then v.fields[KeyIndex(v.fields, key)].1 else Undefined
  }

  /**
   * `String(v)`, as `+` with a string applies it: an array joins its elements' texts with
   * `,` (`null` and `undefined` elements giving ""), and a plain object is
   * `[object Object]`.
   */
  function ToText(v: JsVal): string {
    match v
    case Undefined => "undefined"
    case Null => "null"
    case Bool(b) => if b then "true" else "false"
    case Num(n) => Numerals.IntToString(n)
    case Str(s) => s
    case Arr(items) =>
      Strings.Join(seq(|items|, i requires 0 <= i < |items| =>
        if items[i].Undefined? || items[i].Null? then "" else ToText(items[i])), ",")
    case Obj(_) => "[object Object]"
  }

  /** Property assignment `obj[key] = value`: an existing property keeps its place, a new one goes last. */
  function SetField(fields: seq<(string, JsVal)>, key: string, value: JsVal): (r: seq<(string, JsVal)>)
    ensures Get(Obj(r), key) == value
    ensures forall k :: k != key ==> Get(Obj(r), k) == Get(Obj(fields), k)
    ensures KeyIndex(fields, key) >= 0 ==> |r| == |fields| && forall j :: 0 <= j < |r| ==> r[j].0 == fields[j].0
    ensures KeyIndex(fields, key) == -1 ==> r == fields + [(key, value)]
  {
    var i := KeyIndex(fields, key);
    if i >= 0 then
      var r := fields[i := (key, value)];
      assert forall k :: KeyIndex(r, k) == KeyIndex(fields, k) by {
        forall k ensures KeyIndex(r, k) == KeyIndex(fields, k) {
          SameKeys(fields, r, k);
        }
      }
      r
    else
      var r := fields + [(key, value)];
      AppendNewKey(fields, (key, value));
      assert forall k :: k != key ==> KeyIndex(r, k) == KeyIndex(fields, k) by {
        forall k | k != key ensures KeyIndex(r, k) == KeyIndex(fields, k) {
          AppendOtherKey(fields, (key, value), k);
        }
      }
      r
  }

  lemma {:induction false} SameKeys(a: seq<(string, JsVal)>, b: seq<(string, JsVal)>, k: string)
    requires |a| == |b| && forall j :: 0 <= j < |a| ==> a[j].0 == b[j].0
    ensures KeyIndex(a, k) == KeyIndex(b, k)
  {
    if a != [] {
      SameKeys(a[1..], b[1..], k);
    }
  }

  lemma {:induction false} AppendNewKey(a: seq<(string, JsVal)>, e: (string, JsVal))
    requires KeyIndex(a, e.0) == -1
    ensures KeyIndex(a + [e], e.0) == |a|
  {
    if a != [] {
      assert (a + [e])[1..] == a[1..] + [e];
      AppendNewKey(a[1..], e);
    }
  }

  lemma {:induction false} AppendOtherKey(a: seq<(string, JsVal)>, e: (string, JsVal), k: string)
    requires e.0 != k
    ensures KeyIndex(a + [e], k) == KeyIndex(a, k)
  {
    if a != [] {
      assert (a + [e])[1..] == a[1..] + [e];
      AppendOtherKey(a[1..], e, k);
    } else {
      assert [e][1..] == [];
    }
  }

  /** `obj.key = value` on an object; any other value is first replaced by `{}` by the callers. */
  function SetProp(obj: JsVal, key: string, value: JsVal): (r: JsVal)
    requires obj.Obj?
    ensures r.Obj? && Get(r, key) == value
    ensures forall k :: k != key ==> Get(r, k) == Get(obj, k)
  {
    Obj(SetField(obj.fields, key, value))
  }

  /** `Object.fromEntries(entries)` on string pairs: a later duplicate key wins. */
  function FromEntries(entries: seq<(string, string)>): (m: map<string, string>)
    ensures m.Keys == set i | 0 <= i < |entries| :: entries[i].0
  {
    if entries == [] then map[]
    else
      var init, last := entries[..|entries| - 1], entries[|entries| - 1];
      assert (set i | 0 <= i < |entries| :: entries[i].0)
        == (set i | 0 <= i < |init| :: init[i].0) + {last.0};
      FromEntries(init)[last.0 := last.1]
  }

  /** The value `Object.fromEntries` keeps for a key is the one of its last occurrence. */
  lemma {:induction false} FromEntriesLastWins(entries: seq<(string, string)>, i: nat)
    requires i < |entries|
    requires forall j :: i < j < |entries| ==> entries[j].0 != entries[i].0
    ensures entries[i].0 in FromEntries(entries)
    ensures FromEntries(entries)[entries[i].0] == entries[i].1
  {
    if i < |entries| - 1 {
      var init := entries[..|entries| - 1];
      FromEntriesLastWins(init, i);
    }
  }
}
