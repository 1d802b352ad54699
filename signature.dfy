/**
 * Data signing (lib/signature.ts). An object's properties other than
 * `signature` are sorted by name at every depth, serialised, authenticated
 * with HMAC-SHA-256 under the configured secret, and the MAC is stored as
 * lowercase hexadecimal in the `signature` property. The collation order of
 * `localeCompare`, `JSON.stringify` and HMAC-SHA-256 itself are inputs.
 */
module Signature {
  import opened Wrappers
  import opened Json

  /** What the model takes from the runtime. */
  datatype Crypto = Crypto(
    before: (string, string) -> bool,    // a.localeCompare(b) < 0
    stringify: Json -> string,           // JSON.stringify
    hmac: (string, string) -> seq<bv8>)  // HMAC-SHA-256 of a text under a secret

  /** The key `getSecretKey` resolves to. */
  datatype SigningKey = NoKey | Key(secret: string)

  /** `getSecretKey()`: signing is disabled when SIGNATURE_SECRET_KEY is unset or empty. */
  function SecretKey(env: Option<string>): (k: SigningKey)
    ensures k.Key? <==> env.Some? && env.value != ""
    ensures k.Key? ==> k.secret == env.value
  {
    if env.Some? && env.value != "" then Key(env.value) else NoKey
  }

  /** The collation behaves as a strict total order on property names. */
  ghost predicate StrictTotal(before: (string, string) -> bool) {
    (forall a :: !before(a, a))
    && (forall a, b :: a != b ==> before(a, b) || before(b, a))
    && (forall a, b, c :: Chain(before, a, b, c))
  }

  /** Transitivity at three given names; proofs name the three to use it (see `Transit`). */
  ghost predicate Chain(before: (string, string) -> bool, a: string, b: string, c: string) {
    before(a, b) && before(b, c) ==> before(a, c)
  }

  lemma Transit(before: (string, string) -> bool, a: string, b: string, c: string)
    requires StrictTotal(before) && before(a, b) && before(b, c)
    ensures before(a, c)
  {
    assert Chain(before, a, b, c);
  }

  predicate StrictlySorted(fields: seq<Field>, before: (string, string) -> bool) {
    forall i, j :: 0 <= i < j < |fields| ==> before(fields[i].key, fields[j].key)
  }

  // ---------------------------------------------------------------------
  // Sorting property names: a stable insertion sort, as `Array.prototype.sort`
  // is stable.

  /** Insert `f` after every property that does not sort after it. */
  function Insert(f: Field, sorted: seq<Field>, before: (string, string) -> bool): (r: seq<Field>)
    ensures multiset(r) == multiset(sorted) + multiset{f}
  {
    if |sorted| == 0 then [f]
    else if before(f.key, sorted[0].key) then [f] + sorted
    else
      assert sorted == [sorted[0]] + sorted[1..];
      [sorted[0]] + Insert(f, sorted[1..], before)
  }

  /** `Object.keys(obj).sort((a, b) => a.localeCompare(b))` with each key's value. */
  function SortFields(fields: seq<Field>, before: (string, string) -> bool): (r: seq<Field>)
    ensures multiset(r) == multiset(fields)
    decreases |fields|
  {
    if |fields| == 0 then []
    else
      var n := |fields| - 1;
      assert fields == fields[..n] + [fields[n]];
      Insert(fields[n], SortFields(fields[..n], before), before)
  }

  lemma {:induction false} InsertGet(f: Field, sorted: seq<Field>, before: (string, string) -> bool, k: string)
    requires !HasKey(sorted, f.key)
    ensures Get(Insert(f, sorted, before), k) == if k == f.key then Some(f.val) else Get(sorted, k)
    decreases |sorted|
  {
    if |sorted| > 0 && !before(f.key, sorted[0].key) {
      InsertGet(f, sorted[1..], before, k);
    }
  }

  lemma {:induction false} InsertSorted(f: Field, sorted: seq<Field>, before: (string, string) -> bool)
    requires StrictTotal(before) && StrictlySorted(sorted, before) && !HasKey(sorted, f.key)
    ensures StrictlySorted(Insert(f, sorted, before), before)
    decreases |sorted|
  {
    if |sorted| > 0 && !before(f.key, sorted[0].key) {
      var rest := sorted[1..];
      InsertSorted(f, rest, before);
      var ins := Insert(f, rest, before);
      assert before(sorted[0].key, f.key);
      forall j | 0 <= j < |ins| ensures before(sorted[0].key, ins[j].key) {
        InsertFrom(f, rest, before, j);
        if ins[j] != f {
          var i :| 0 <= i < |rest| && rest[i] == ins[j];
          assert sorted[i + 1] == ins[j];
        }
      }
    } else if |sorted| > 0 {
      forall j | 0 <= j < |sorted| ensures before(f.key, sorted[j].key) {
        if j > 0 {
          Transit(before, f.key, sorted[0].key, sorted[j].key);
        }
      }
    }
  }

  /** Sorting an object without repeated names keeps every name's value. */
  lemma {:induction false} SortFieldsGet(fields: seq<Field>, before: (string, string) -> bool)
    requires UniqueKeys(fields)
    ensures SameProps(SortFields(fields, before), fields)
    decreases |fields|
  {
    if |fields| > 0 {
      var n := |fields| - 1;
      var prefix := fields[..n];
      SortFieldsGet(prefix, before);
      var s := SortFields(prefix, before);
      assert Get(s, fields[n].key).None?;
      assert fields == prefix + [fields[n]];
      forall k ensures Get(SortFields(fields, before), k) == Get(fields, k) {
        InsertGet(fields[n], s, before, k);
        GetAppend(prefix, fields[n], k);
      }
    }
  }

  /** Under a strict total collation the names come out in strictly increasing order. */
  lemma {:induction false} SortFieldsSorted(fields: seq<Field>, before: (string, string) -> bool)
    requires StrictTotal(before) && UniqueKeys(fields)
    ensures StrictlySorted(SortFields(fields, before), before)
    decreases |fields|
  {
    if |fields| > 0 {
      var n := |fields| - 1;
      LastKeyFresh(fields);
      SortFieldsSorted(fields[..n], before);
      SortStep(fields, before);
    }
  }

  /** Inserting the last property into the sorted others keeps the order. */
  lemma SortStep(fields: seq<Field>, before: (string, string) -> bool)
    requires StrictTotal(before) && UniqueKeys(fields) && |fields| > 0
    requires StrictlySorted(SortFields(fields[..|fields| - 1], before), before)
    ensures StrictlySorted(SortFields(fields, before), before)
  {
    var n := |fields| - 1;
    SortedFresh(fields, before);
    InsertSorted(fields[n], SortFields(fields[..n], before), before);
  }

  /** Each member of `Insert(f, rest)` is `f` or a member of `rest`. */
  lemma InsertFrom(f: Field, rest: seq<Field>, before: (string, string) -> bool, j: int)
    requires 0 <= j < |Insert(f, rest, before)|
    ensures Insert(f, rest, before)[j] == f || exists i :: 0 <= i < |rest| && rest[i] == Insert(f, rest, before)[j]
  {
    var ins := Insert(f, rest, before);
    assert ins[j] in multiset(rest) + multiset{f};
  }

  /** The last property's name is not among the sorted others. */
  lemma SortedFresh(fields: seq<Field>, before: (string, string) -> bool)
    requires UniqueKeys(fields) && |fields| > 0
    ensures !HasKey(SortFields(fields[..|fields| - 1], before), fields[|fields| - 1].key)
  {
    var prefix := fields[..|fields| - 1];
    LastKeyFresh(fields);
    SortFieldsGet(prefix, before);
    assert Get(SortFields(prefix, before), fields[|fields| - 1].key) == Get(prefix, fields[|fields| - 1].key);
  }

  /** Without repeated names, the last property's name is not among the others. */
  lemma LastKeyFresh(fields: seq<Field>)
    requires UniqueKeys(fields) && |fields| > 0
    ensures UniqueKeys(fields[..|fields| - 1])
    ensures !HasKey(fields[..|fields| - 1], fields[|fields| - 1].key)
  {
  }

  /** Two strictly sorted property lists that read alike are the same list. */
  lemma {:induction false} SortedUnique(a: seq<Field>, b: seq<Field>, before: (string, string) -> bool)
    requires StrictTotal(before) && StrictlySorted(a, before) && StrictlySorted(b, before)
    requires SameProps(a, b)
    ensures a == b
    decreases |a|
  {
    assert |a| > 0 ==> Get(a, a[0].key).Some?;
    assert |b| > 0 ==> Get(b, b[0].key).Some?;
    if |a| == 0 {
      assert |b| == 0;
    } else {
      assert |b| > 0;
      // The least name of each list is in the other; neither may precede the other.
      var ka, kb := a[0].key, b[0].key;
      assert Get(b, ka).Some? && Get(a, kb).Some?;
      var i :| 0 <= i < |b| && b[i].key == ka;
      var j :| 0 <= j < |a| && a[j].key == kb;
      assert i > 0 ==> before(kb, ka);
      assert j > 0 ==> before(ka, kb);
      if i > 0 && j > 0 {
        Transit(before, ka, kb, ka);
      }
      assert ka == kb;
      assert a[0] == b[0] by {
        assert Get(a, ka) == Some(a[0].val);
        assert Get(b, kb) == Some(b[0].val);
      }
      forall k ensures Get(a[1..], k) == Get(b[1..], k) {
        if k == ka {
        } else {
          assert Get(a, k) == Get(a[1..], k);
          assert Get(b, k) == Get(b[1..], k);
        }
      }
      SortedUnique(a[1..], b[1..], before);
      assert a == [a[0]] + a[1..] && b == [b[0]] + b[1..];
    }
  }

  /** The sorted list depends only on what the object holds, not on its property order. */
  lemma SortFieldsCanonical(a: seq<Field>, b: seq<Field>, before: (string, string) -> bool)
    requires StrictTotal(before) && UniqueKeys(a) && UniqueKeys(b) && SameProps(a, b)
    ensures SortFields(a, before) == SortFields(b, before)
  {
    SortFieldsSorted(a, before);
    SortFieldsSorted(b, before);
    SortFieldsGet(a, before);
    SortFieldsGet(b, before);
    SortedUnique(SortFields(a, before), SortFields(b, before), before);
  }

  // ---------------------------------------------------------------------
  // sortObjectKeys

  /** `sortObjectKeys(v)`: every object at every depth gets its names sorted. */
  function SortObjectKeys(v: Json, before: (string, string) -> bool): Json
    decreases v, 1
  {
    match v
    case JArr(items) => JArr(SortItems(items, before))
    case JObj(fields) => JObj(SortFields(SortValues(fields, before), before))
    case _ => v
  }

  function SortItems(items: seq<Json>, before: (string, string) -> bool): (r: seq<Json>)
    ensures |r| == |items|
    decreases items, 0
  {
    if |items| == 0 then [] else [SortObjectKeys(items[0], before)] + SortItems(items[1..], before)
  }

  function SortValues(fields: seq<Field>, before: (string, string) -> bool): (r: seq<Field>)
    ensures |r| == |fields|
    ensures forall i :: 0 <= i < |fields| ==> r[i].key == fields[i].key
    decreases fields, 0
  {
    if |fields| == 0 then []
    else [Field(fields[0].key, SortObjectKeys(fields[0].val, before))] + SortValues(fields[1..], before)
  }

  lemma {:induction false} SortValuesGet(fields: seq<Field>, before: (string, string) -> bool, k: string)
    ensures Get(SortValues(fields, before), k) ==
      if HasKey(fields, k) then Some(SortObjectKeys(Get(fields, k).value, before)) else None
    decreases |fields|
  {
    if |fields| > 0 {
      SortValuesGet(fields[1..], before, k);
    }
  }

  /**
   * A sorted object holds the same names as the original, each with its
   * value sorted in turn, and lists them in strictly increasing order.
   */
  lemma SortObjectKeysObject(fields: seq<Field>, before: (string, string) -> bool)
    requires UniqueKeys(fields)
    ensures SortObjectKeys(JObj(fields), before).JObj?
    ensures forall k :: (Member(Some(SortObjectKeys(JObj(fields), before)), k) ==
      if HasKey(fields, k) then Some(SortObjectKeys(Get(fields, k).value, before)) else None)
    ensures StrictTotal(before) ==> StrictlySorted(SortObjectKeys(JObj(fields), before).fields, before)
  {
    var sv := SortValues(fields, before);
    assert UniqueKeys(sv);
    SortFieldsGet(sv, before);
    forall k ensures Get(SortFields(sv, before), k) ==
      if HasKey(fields, k) then Some(SortObjectKeys(Get(fields, k).value, before)) else None
    {
      SortValuesGet(fields, before, k);
    }
    if StrictTotal(before) {
      SortFieldsSorted(sv, before);
    }
  }

  /** Objects that differ only in property order sort to the same value. */
  lemma SortObjectKeysCanonical(a: seq<Field>, b: seq<Field>, before: (string, string) -> bool)
    requires StrictTotal(before) && UniqueKeys(a) && UniqueKeys(b) && SameProps(a, b)
    ensures SortObjectKeys(JObj(a), before) == SortObjectKeys(JObj(b), before)
  {
    var sa, sb := SortValues(a, before), SortValues(b, before);
    assert UniqueKeys(sa) && UniqueKeys(sb);
    forall k ensures Get(sa, k) == Get(sb, k) {
      SortValuesGet(a, before, k);
      SortValuesGet(b, before, k);
    }
    SortFieldsCanonical(sa, sb, before);
  }

  // ---------------------------------------------------------------------
  // bufferToHex

  function HexDigit(n: nat): (c: char)
    requires n < 16
    ensures c in "0123456789abcdef"
  {
    "0123456789abcdef"[n]
  }

  /** `b.toString(16).padStart(2, '0')`. */
  function ByteToHex(b: bv8): (r: string)
    ensures |r| == 2
  {
    [HexDigit(b as nat / 16), HexDigit(b as nat % 16)]
  }

  /** `bufferToHex`: two lowercase hexadecimal digits per byte, most significant first. */
  function BufferToHex(bytes: seq<bv8>): (r: string)
    ensures |r| == 2 * |bytes|
    ensures forall i :: 0 <= i < |r| ==> r[i] in "0123456789abcdef"
  {
    if |bytes| == 0 then "" else ByteToHex(bytes[0]) + BufferToHex(bytes[1..])
  }

  function HexValue(c: char): Option<nat> {
    if '0' <= c <= '9' then Some(c as nat - '0' as nat)
    else if 'a' <= c <= 'f' then Some(c as nat - 'a' as nat + 10)
    else None
  }

  /** Reading lowercase hexadecimal back into bytes. */
  function HexToBuffer(s: string): Option<seq<bv8>>
    decreases |s|
  {
    if |s| == 0 then Some([])
    else if |s| == 1 then None
    else
      var hi, lo := HexValue(s[0]), HexValue(s[1]);
      if hi.None? || lo.None? || hi.value >= 16 || lo.value >= 16 then None
      else
        match HexToBuffer(s[2..])
        case None => None
        case Some(rest) => Some([(hi.value * 16 + lo.value) as bv8] + rest)
  }

  lemma HexDigitValue(n: nat)
    requires n < 16
    ensures HexValue(HexDigit(n)) == Some(n)
  {
  }

  lemma ByteDigits(b: bv8)
    ensures ((b as nat / 16) * 16 + b as nat % 16) as bv8 == b
  {
    var n := b as nat;
    assert (n / 16) * 16 + n % 16 == n;
  }

  /** The hexadecimal text determines the bytes it was printed from. */
  lemma {:induction false} HexRoundTrip(bytes: seq<bv8>)
    ensures HexToBuffer(BufferToHex(bytes)) == Some(bytes)
    decreases |bytes|
  {
    if |bytes| > 0 {
      HexRoundTrip(bytes[1..]);
      HexStep(bytes[0], BufferToHex(bytes[1..]));
      assert [bytes[0]] + bytes[1..] == bytes;
    }
  }

  /** Reading one printed byte, then the rest. */
  lemma HexStep(b: bv8, t: string)
    ensures HexToBuffer(ByteToHex(b) + t) ==
      if HexToBuffer(t).None? then None else Some([b] + HexToBuffer(t).value)
  {
    var h := ByteToHex(b) + t;
    HexDigitValue(b as nat / 16);
    HexDigitValue(b as nat % 16);
    assert h[0] == HexDigit(b as nat / 16) && h[1] == HexDigit(b as nat % 16);
    assert h[2..] == t;
    ByteDigits(b);
  }

  lemma BufferToHexInjective(a: seq<bv8>, b: seq<bv8>)
    requires BufferToHex(a) == BufferToHex(b)
    ensures a == b
  {
    HexRoundTrip(a);
    HexRoundTrip(b);
  }

  // ---------------------------------------------------------------------
  // generateSignature and verifySignature

  /** What is authenticated: the object without its `signature`, sorted, serialised. */
  function SignedText(c: Crypto, data: seq<Field>): string {
    c.stringify(SortObjectKeys(JObj(Delete(data, "signature")), c.before))
  }

  /** `generateSignature(data)`; `None` is the `null` returned when no key is configured. */
  function GenerateSignature(key: SigningKey, c: Crypto, data: seq<Field>): (r: Option<string>)
    ensures r.Some? <==> key.Key?
  {
    if key.NoKey? then None else Some(BufferToHex(c.hmac(key.secret, SignedText(c, data))))
  }

  /**
   * `verifySignature(v)`: a key is configured, `v` is an object whose
   * `signature` is a string, and it equals the signature of the rest of `v`.
   */
  function VerifySignature(key: SigningKey, c: Crypto, v: Json): (ok: bool)
    ensures ok ==> key.Key? && v.JObj? && HasKey(v.fields, "signature")
    ensures ok <==> (key.Key? && v.JObj?
      && Get(v.fields, "signature") == Some(JStr(GenerateSignature(key, c, Delete(v.fields, "signature")).value)))
  {
    if key.NoKey? || !v.JObj? then false
    else
      match Get(v.fields, "signature")
      case Some(JStr(sig)) =>
        var expected := GenerateSignature(key, c, Delete(v.fields, "signature"));
        expected.Some? && |sig| == |expected.value| && sig == expected.value
      case _ => false
  }

  /** An old signature inside the data does not influence the new one. */
  lemma SignatureIgnoresOldSignature(key: SigningKey, c: Crypto, data: seq<Field>, previous: Json)
    ensures GenerateSignature(key, c, Set(data, "signature", previous)) == GenerateSignature(key, c, data)
  {
    DeleteSet(data, "signature", previous);
  }

  /** Storing a freshly generated signature yields data that verifies. */
  lemma SignedDataVerifies(key: SigningKey, c: Crypto, data: seq<Field>)
    requires key.Key?
    ensures VerifySignature(key, c, JObj(Set(data, "signature", JStr(GenerateSignature(key, c, data).value))))
  {
    var sig := GenerateSignature(key, c, data).value;
    var signed := Set(data, "signature", JStr(sig));
    DeleteSet(data, "signature", JStr(sig));
    var rest := Delete(signed, "signature");
    assert Delete(rest, "signature") == rest;
    assert GenerateSignature(key, c, rest) == Some(sig);
  }

  /**
   * Under a strict total collation, reordering the properties of an object
   * changes neither its signature nor whether it verifies.
   */
  lemma SignatureIgnoresOrder(key: SigningKey, c: Crypto, a: seq<Field>, b: seq<Field>)
    requires StrictTotal(c.before) && UniqueKeys(a) && UniqueKeys(b) && SameProps(a, b)
    ensures GenerateSignature(key, c, a) == GenerateSignature(key, c, b)
    ensures VerifySignature(key, c, JObj(a)) == VerifySignature(key, c, JObj(b))
  {
    var da, db := Delete(a, "signature"), Delete(b, "signature");
    forall k ensures Get(da, k) == Get(db, k) {
      if k != "signature" {
        assert Get(a, k) == Get(b, k);
      }
    }
    SortObjectKeysCanonical(da, db, c.before);
    assert Delete(da, "signature") == da && Delete(db, "signature") == db;
    assert Get(a, "signature") == Get(b, "signature");
  }
}
