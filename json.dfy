/**
 * JSON values as JavaScript programs see them after `JSON.parse`: objects are
 * lists of properties in insertion order, a missing property reads as
 * `undefined` (here `None`), and truthiness follows JavaScript.
 */
module Json {
  import opened Wrappers
  import opened JsText

  datatype Json =
    | JNull
    | JBool(b: bool)
    | JNum(n: int)
    | JStr(s: string)
    | JArr(items: seq<Json>)
    | JObj(fields: seq<Field>)

  datatype Field = Field(key: string, val: Json)

  predicate HasKey(fields: seq<Field>, k: string) {
    exists i :: 0 <= i < |fields| && fields[i].key == k
  }

  function Keys(fields: seq<Field>): (r: seq<string>)
    ensures |r| == |fields|
    ensures forall i :: 0 <= i < |fields| ==> r[i] == fields[i].key
  {
    if |fields| == 0 then [] else [fields[0].key] + Keys(fields[1..])
  }

  /** No property name occurs twice, as in every object JavaScript builds. */
  predicate UniqueKeys(fields: seq<Field>) {
    forall i, j :: 0 <= i < j < |fields| ==> fields[i].key != fields[j].key
  }

  /** Every object nested anywhere in `v` has distinct property names. */
  predicate WellFormed(v: Json) {
    match v
    case JArr(items) => forall i :: 0 <= i < |items| ==> WellFormed(items[i])
    case JObj(fields) => UniqueKeys(fields) && forall i :: 0 <= i < |fields| ==> WellFormed(fields[i].val)
    case _ => true
  }

  /** Property read `obj[k]`: the first property with that name, or `undefined`. */
  function Get(fields: seq<Field>, k: string): (r: Option<Json>)
    ensures r.Some? <==> HasKey(fields, k)
    ensures r.Some? ==> exists i :: 0 <= i < |fields| && fields[i] == Field(k, r.value)
  {
    if |fields| == 0 then None
    else if fields[0].key == k then Some(fields[0].val)
    else
      var r := Get(fields[1..], k);
      assert r.Some? ==> exists i :: 0 <= i < |fields[1..]| && fields[1..][i] == Field(k, r.value);
      r
  }

  /** In an object without repeated names, a property's value is what `Get` reads. */
  lemma {:induction false} GetAt(fields: seq<Field>, i: int)
    requires UniqueKeys(fields) && 0 <= i < |fields|
    ensures Get(fields, fields[i].key) == Some(fields[i].val)
  {
    if i > 0 {
      GetAt(fields[1..], i - 1);
    }
  }

  /** Property assignment `obj[k] = v`: an existing property keeps its place, a new one goes last. */
  function Set(fields: seq<Field>, k: string, v: Json): (r: seq<Field>)
    ensures Get(r, k) == Some(v)
    ensures forall k' :: k' != k ==> Get(r, k') == Get(fields, k')
  {
    if |fields| == 0 then [Field(k, v)]
    else if fields[0].key == k then [Field(k, v)] + fields[1..]
    else [fields[0]] + Set(fields[1..], k, v)
  }

  /** Assignment to an existing name keeps every position; to a new name it appends. */
  lemma SetShape(fields: seq<Field>, k: string, v: Json)
    ensures HasKey(fields, k) ==> Keys(Set(fields, k, v)) == Keys(fields)
    ensures !HasKey(fields, k) ==> Set(fields, k, v) == fields + [Field(k, v)]
  {
    if HasKey(fields, k) {
      SetKeepsKeys(fields, k, v);
    } else {
      SetAppends(fields, k, v);
    }
  }

  /** Assignment to an existing name changes no name and no position. */
  lemma {:induction false} SetKeepsKeys(fields: seq<Field>, k: string, v: Json)
    requires HasKey(fields, k)
    ensures Keys(Set(fields, k, v)) == Keys(fields)
  {
    var rest := fields[1..];
    if fields[0].key != k {
      assert HasKey(rest, k) by {
        var i :| 0 <= i < |fields| && fields[i].key == k;
        assert rest[i - 1].key == k;
      }
      SetKeepsKeys(rest, k, v);
    }
  }

  /** Assignment to a new name appends the property. */
  lemma {:induction false} SetAppends(fields: seq<Field>, k: string, v: Json)
    requires !HasKey(fields, k)
    ensures Set(fields, k, v) == fields + [Field(k, v)]
  {
    if |fields| > 0 {
      var rest := fields[1..];
      SetPast(fields, k, v);
      SetAppends(rest, k, v);
      ConsAppend(fields[0], rest, Set(rest, k, v), Field(k, v), fields);
    }
  }

  /** Appending after the tail, then restoring the head, appends to the whole. */
  lemma ConsAppend<T>(x: T, rest: seq<T>, s: seq<T>, y: T, whole: seq<T>)
    requires s == rest + [y] && whole == [x] + rest
    ensures [x] + s == whole + [y]
  {
  }

  /** A name missing from a list is missing from its tail, and assignment passes over the first property. */
  lemma SetPast(fields: seq<Field>, k: string, v: Json)
    requires |fields| > 0 && !HasKey(fields, k)
    ensures fields == [fields[0]] + fields[1..]
    ensures !HasKey(fields[1..], k)
    ensures Set(fields, k, v) == [fields[0]] + Set(fields[1..], k, v)
  {
    var rest := fields[1..];
    forall i | 0 <= i < |rest| ensures rest[i].key != k {
      assert rest[i] == fields[i + 1];
    }
    assert fields[0].key != k;
  }

  /** Assignment never introduces a repeated name. */
  lemma {:induction false} SetUnique(fields: seq<Field>, k: string, v: Json)
    requires UniqueKeys(fields)
    ensures UniqueKeys(Set(fields, k, v))
  {
    if |fields| > 0 && fields[0].key != k {
      SetUnique(fields[1..], k, v);
      SetKeysFrom(fields[1..], k, v);
      SetSkip(fields, k, v);
      var rest := Set(fields[1..], k, v);
      forall j | 0 <= j < |rest| ensures rest[j].key != fields[0].key {
        NotFrontKey(fields, k, rest[j].key);
      }
      ConsUnique(fields[0], rest, Set(fields, k, v));
    }
  }

  /** With distinct names, neither `k` nor a name of the tail is the first property's, unless `k` is. */
  lemma NotFrontKey(fields: seq<Field>, k: string, key: string)
    requires UniqueKeys(fields) && |fields| > 0 && fields[0].key != k
    requires key == k || HasKey(fields[1..], key)
    ensures key != fields[0].key
  {
    if key != k {
      var i :| 0 <= i < |fields[1..]| && fields[1..][i].key == key;
      assert fields[i + 1].key == key;
    }
  }

  /** A property put in front of distinct names not its own keeps the names distinct. */
  lemma ConsUnique(f: Field, rest: seq<Field>, s: seq<Field>)
    requires s == [f] + rest && UniqueKeys(rest)
    requires forall j :: 0 <= j < |rest| ==> rest[j].key != f.key
    ensures UniqueKeys(s)
  {
    forall a, b | 0 <= a < b < |s| ensures s[a].key != s[b].key {
      assert s[b] == rest[b - 1];
      if a > 0 {
        assert s[a] == rest[a - 1];
      }
    }
  }

  /** After an assignment every name is the assigned one or was already there. */
  lemma {:induction false} SetKeysFrom(fields: seq<Field>, k: string, v: Json)
    ensures forall j :: 0 <= j < |Set(fields, k, v)| ==>
      Set(fields, k, v)[j].key == k || HasKey(fields, Set(fields, k, v)[j].key)
  {
    var s := Set(fields, k, v);
    if |fields| > 0 && fields[0].key != k {
      SetKeysFrom(fields[1..], k, v);
      SetSkip(fields, k, v);
      var rest := Set(fields[1..], k, v);
      forall j | 0 <= j < |s| ensures s[j].key == k || HasKey(fields, s[j].key) {
        if j > 0 && s[j].key != k {
          assert s[j] == rest[j - 1];
          var i :| 0 <= i < |fields[1..]| && fields[1..][i].key == rest[j - 1].key;
          assert fields[i + 1].key == s[j].key;
        } else if j == 0 {
          assert fields[0].key == s[0].key;
        }
      }
    } else {
      forall j | 0 <= j < |s| ensures s[j].key == k || HasKey(fields, s[j].key) {
        if j > 0 {
          assert fields[j].key == s[j].key;
        }
      }
    }
  }

  /** Assignment to a name other than the first property's keeps that property in front. */
  lemma SetSkip(fields: seq<Field>, k: string, v: Json)
    requires |fields| > 0 && fields[0].key != k
    ensures Set(fields, k, v) == [fields[0]] + Set(fields[1..], k, v)
  {
  }

  /** `delete obj[k]`. */
  function Delete(fields: seq<Field>, k: string): (r: seq<Field>)
    ensures !HasKey(r, k)
    ensures forall k' :: k' != k ==> Get(r, k') == Get(fields, k')
    ensures forall j :: 0 <= j < |r| ==> HasKey(fields, r[j].key)
    ensures UniqueKeys(fields) ==> UniqueKeys(r)
    ensures !HasKey(fields, k) ==> r == fields
  {
    if |fields| == 0 then []
    else if fields[0].key == k then Delete(fields[1..], k)
    else
      var rest := Delete(fields[1..], k);
      [fields[0]] + rest
  }

  /**
   * `obj[k] = v` where `v` may be `undefined`: a property holding `undefined`
   * is dropped by `JSON.stringify`, so it is modelled as absent.
   */
  function Assign(fields: seq<Field>, k: string, v: Option<Json>): (r: seq<Field>)
    ensures Get(r, k) == v
    ensures forall k' :: k' != k ==> Get(r, k') == Get(fields, k')
  {
    if v.Some? then Set(fields, k, v.value) else Delete(fields, k)
  }

  /** Deleting a property just written removes every trace of the write. */
  lemma {:induction false} DeleteSet(fields: seq<Field>, k: string, v: Json)
    ensures Delete(Set(fields, k, v), k) == Delete(fields, k)
    decreases |fields|
  {
    if |fields| > 0 && fields[0].key != k {
      DeleteSet(fields[1..], k, v);
    }
  }

  /** Reading from an object with one more property at the end. */
  lemma {:induction false} GetAppend(fields: seq<Field>, f: Field, k: string)
    ensures Get(fields + [f], k) ==
      if HasKey(fields, k) then Get(fields, k) else if k == f.key then Some(f.val) else None
    decreases |fields|
  {
    if |fields| > 0 {
      assert (fields + [f])[1..] == fields[1..] + [f];
      GetAppend(fields[1..], f, k);
      if fields[0].key != k && HasKey(fields, k) {
        var i :| 0 <= i < |fields| && fields[i].key == k;
        assert fields[1..][i - 1].key == k;
      }
    }
  }

  /** The number of nodes in a value: a measure for recursion through property lookups. */
  function Size(v: Json): nat
    decreases v, 1
  {
    match v
    case JArr(items) => 1 + ItemsSize(items)
    case JObj(fields) => 1 + FieldsSize(fields)
    case _ => 1
  }

  function ItemsSize(items: seq<Json>): nat
    decreases items, 0
  {
    if |items| == 0 then 0 else Size(items[0]) + ItemsSize(items[1..])
  }

  function FieldsSize(fields: seq<Field>): nat
    decreases fields, 0
  {
    if |fields| == 0 then 0 else Size(fields[0].val) + FieldsSize(fields[1..])
  }

  /** A property read returns part of the object, so something smaller. */
  lemma {:induction false} GetSmaller(fields: seq<Field>, k: string)
    requires HasKey(fields, k)
    ensures Size(Get(fields, k).value) <= FieldsSize(fields)
  {
    if fields[0].key != k {
      var i :| 0 <= i < |fields| && fields[i].key == k;
      assert fields[1..][i - 1].key == k;
      GetSmaller(fields[1..], k);
    }
  }

  /** Two property lists that read the same under every name. */
  ghost predicate SameProps(a: seq<Field>, b: seq<Field>) {
    forall k :: Get(a, k) == Get(b, k)
  }

  /** JavaScript truthiness of a JSON value. */
  predicate Truthy(v: Json) {
    match v
    case JNull => false
    case JBool(b) => b
    case JNum(n) => n != 0
    case JStr(s) => s != ""
    case _ => true
  }

  /** `v[k]` for a value that may be `undefined`; only objects have JSON properties. */
  function Member(v: Option<Json>, k: string): Option<Json> {
    if v.Some? && v.value.JObj? then Get(v.value.fields, k) else None
  }

  /** Truthiness of a value that may be `undefined` (which is falsy). */
  predicate TruthyOpt(v: Option<Json>) {
    v.Some? && Truthy(v.value)
  }

  function IndexFields(vals: seq<Json>): (r: seq<Field>)
    ensures |r| == |vals|
    ensures forall i :: 0 <= i < |vals| ==> r[i] == Field(NatToString(i), vals[i])
  {
    seq(|vals|, i requires 0 <= i < |vals| => Field(NatToString(i), vals[i]))
  }

  function CharValues(s: string): (r: seq<Json>)
    ensures |r| == |s|
    ensures forall i :: 0 <= i < |s| ==> r[i] == JStr([s[i]])
  {
    seq(|s|, i requires 0 <= i < |s| => JStr([s[i]]))
  }

  /**
   * The own enumerable properties that `{...v}` copies: an object's properties,
   * an array's or a string's elements under their index names, nothing otherwise.
   */
  function Spread(v: Json): (r: seq<Field>)
    ensures v.JObj? ==> r == v.fields
    ensures v.JArr? ==> |r| == |v.items|
    ensures v.JStr? ==> |r| == |v.s|
    ensures !v.JObj? && !v.JArr? && !v.JStr? ==> r == []
  {
    match v
    case JObj(fields) => fields
    case JArr(items) => IndexFields(items)
    case JStr(s) => IndexFields(CharValues(s))
    case _ => []
  }

  lemma IndexFieldsUnique(vals: seq<Json>)
    ensures UniqueKeys(IndexFields(vals))
  {
    forall i, j | 0 <= i < j < |vals|
      ensures IndexFields(vals)[i].key != IndexFields(vals)[j].key
    {
      if NatToString(i) == NatToString(j) {
        NatToStringInjective(i, j);
      }
    }
  }

  /** Spreading a well-formed value never yields a repeated property name. */
  lemma SpreadUnique(v: Json)
    requires v.JObj? ==> UniqueKeys(v.fields)
    ensures UniqueKeys(Spread(v))
  {
    match v
    case JArr(items) => IndexFieldsUnique(items);
    case JStr(s) => IndexFieldsUnique(CharValues(s));
    case _ =>
  }

  /** `String(v)` as a template literal or `+ ""` renders it. */
  function JsString(v: Json): string {
    match v
    case JNull => "null"
    case JBool(b) => if b then "true" else "false"
    case JNum(n) => IntToString(n)
    case JStr(s) => s
    case JArr(items) => JoinElements(items)
    case JObj(_) => "[object Object]"
  }

  /** `Array.prototype.join(",")`, where `null` elements print as nothing. */
  function JoinElements(items: seq<Json>): string
    decreases items
  {
    if |items| == 0 then ""
    else
      var first := if items[0].JNull? then "" else JsString(items[0]);
      if |items| == 1 then first else first + "," + JoinElements(items[1..])
  }

  /** `Number(v)` for the values whose conversion this model tracks; `None` is NaN. */
  function ToNumber(v: Option<Json>): Option<int> {
    if v.None? then None
    else
      match v.value
      case JNum(n) => Some(n)
      case JBool(b) => Some(if b then 1 else 0)
      case JNull => Some(0)
      case _ => None
  }
}
