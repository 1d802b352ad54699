/**
 * The list-editing helpers of the scenario editor
 * (components/ScenarioEditor.tsx). None of them changes the scenario it
 * is shown: each builds a fresh array from the current one and hands it,
 * with the dotted path it belongs at, to `onChange`. A helper whose
 * current value cannot be spread or filtered throws instead (`None`).
 */
module ScenarioEditor {
  import opened Wrappers
  import opened JsText
  import opened Json

  /** What a helper hands to `onChange`. */
  datatype Change = Change(path: string, value: Json)

  /**
   * `current?.[key]`: nothing below `null` or `undefined`; an object's
   * property, or an array's or string's element under its index name.
   */
  function Step(current: Option<Json>, key: string): Option<Json> {
    if current.None? || current.value.JNull? then None
    else Get(Spread(current.value), key)
  }

  /** `keys.reduce((current, key) => current?.[key], obj)`. */
  function Follow(v: Option<Json>, keys: seq<string>): Option<Json>
    decreases |keys|
  {
    if |keys| == 0 then v else Follow(Step(v, keys[0]), keys[1..])
  }

  /** `getNestedValue(obj, path)`: follow the keys of a dot-separated path. */
  function GetNestedValue(obj: Json, path: string): Option<Json> {
    Follow(Some(obj), Split(path, '.'))
  }

  /** Once a value on the way is `null` or `undefined`, the result is `undefined`. */
  lemma {:induction false} FollowMissing(v: Option<Json>, keys: seq<string>)
    requires v.None? || (v.value.JNull? && |keys| > 0)
    ensures Follow(v, keys) == None
    decreases |keys|
  {
    if |keys| > 0 {
      FollowMissing(None, keys[1..]);
    }
  }

  /** Following a path in two pieces is following the whole path. */
  lemma {:induction false} FollowAppend(v: Option<Json>, a: seq<string>, b: seq<string>)
    ensures Follow(v, a + b) == Follow(Follow(v, a), b)
    decreases |a|
  {
    if |a| == 0 {
      assert a + b == b;
    } else {
      assert (a + b)[0] == a[0];
      assert (a + b)[1..] == a[1..] + b;
      FollowAppend(Step(v, a[0]), a[1..], b);
    }
  }

  /** Through objects, each key selects that property of the one before. */
  lemma FollowObject(fields: seq<Field>, k: string, rest: seq<string>)
    ensures Follow(Some(JObj(fields)), [k] + rest) == Follow(Get(fields, k), rest)
  {
    assert ([k] + rest)[1..] == rest;
  }

  /** `getNestedValue(data, path) || []`. */
  function CurrentOr(v: Option<Json>): Json {
    if TruthyOpt(v) then v.value else JArr([])
  }

  /** `[...current]`: arrays and strings spread into their elements; anything else throws. */
  function SpreadItems(current: Json): (r: Option<seq<Json>>)
    ensures current.JArr? ==> r == Some(current.items)
    ensures current.JStr? ==> r.Some? && |r.value| == |current.s|
    ensures !current.JArr? && !current.JStr? ==> r.None?
  {
    match current
    case JArr(items) => Some(items)
    case JStr(s) => Some(CharValues(s))
    case _ => None
  }

  /**
   * `copy[index] = value` on a copy: positions past the end are holes,
   * which this model writes as `null`.
   */
  function Put(items: seq<Json>, index: nat, value: Json): (r: seq<Json>)
    ensures |r| == if index < |items| then |items| else index + 1
    ensures r[index] == value
    ensures forall i :: 0 <= i < |r| && i != index ==> r[i] == (if i < |items| then items[i] else JNull)
  {
    seq(if index < |items| then |items| else index + 1,
        i requires 0 <= i => if i == index then value else if i < |items| then items[i] else JNull)
  }

  /** `current.filter((_, i) => i !== index)`. */
  function Without(items: seq<Json>, index: int): (r: seq<Json>)
    ensures 0 <= index < |items| ==> r == items[..index] + items[index + 1..]
    ensures !(0 <= index < |items|) ==> r == items
  {
    if 0 <= index < |items| then items[..index] + items[index + 1..] else items
  }

  /** `handleArrayChange`: the current array with only position `index` set to `value`. */
  function HandleArrayChange(data: Json, path: string, index: nat, value: string): Option<Change> {
    var items := SpreadItems(CurrentOr(GetNestedValue(data, path)));
    if items.None? then None else Some(Change(path, JArr(Put(items.value, index, JStr(value)))))
  }

  /** `addArrayItem`: the current array with `''` appended. */
  function AddArrayItem(data: Json, path: string): Option<Change> {
    var items := SpreadItems(CurrentOr(GetNestedValue(data, path)));
    if items.None? then None else Some(Change(path, JArr(items.value + [JStr("")])))
  }

  /** `Array.prototype.filter` exists only on arrays. */
  function FilterItems(current: Json): Option<seq<Json>> {
    if current.JArr? then Some(current.items) else None
  }

  /** `removeArrayItem`: the current array without the element at `index`. */
  function RemoveArrayItem(data: Json, path: string, index: int): Option<Change> {
    var items := FilterItems(CurrentOr(GetNestedValue(data, path)));
    if items.None? then None else Some(Change(path, JArr(Without(items.value, index))))
  }

  const RolesPath := "elements.roles"

  /** `data.elements?.roles || []`. */
  function CurrentRoles(data: Json): Json {
    CurrentOr(Follow(Some(data), ["elements", "roles"]))
  }

  const EmptyRole := JObj([Field("name", JStr("")), Field("description", JStr(""))])

  /** `addRole`: the roles with an empty role appended. */
  function AddRole(data: Json): Option<Change> {
    var roles := SpreadItems(CurrentRoles(data));
    if roles.None? then None else Some(Change(RolesPath, JArr(roles.value + [EmptyRole])))
  }

  /** `removeRole`: the roles without the one at `index`. */
  function RemoveRole(data: Json, index: int): Option<Change> {
    var roles := FilterItems(CurrentRoles(data));
    if roles.None? then None else Some(Change(RolesPath, JArr(Without(roles.value, index))))
  }

  /** `{ ...role, [field]: value }`. */
  function WithField(role: Json, field: string, value: string): (r: Json)
    ensures r.JObj? && Get(r.fields, field) == Some(JStr(value))
    ensures forall k :: k != field ==> Get(r.fields, k) == Get(Spread(role), k)
  {
    JObj(Set(Spread(role), field, JStr(value)))
  }

  datatype RoleField = Name | Description

  function FieldName(f: RoleField): string {
    match f
    case Name => "name"
    case Description => "description"
  }

  /** `handleRoleChange`: role `index` gets `field` set to `value`. */
  function HandleRoleChange(data: Json, index: nat, field: RoleField, value: string): Option<Change> {
    var roles := SpreadItems(CurrentRoles(data));
    if roles.None? then None
    else
      var role := if index < |roles.value| then roles.value[index] else JNull;
      Some(Change(RolesPath, JArr(Put(roles.value, index, WithField(role, FieldName(field), value)))))
  }

  /**
   * `handleArrayChange` touches only position `index`: every other
   * element of the current array is kept where it was.
   */
  lemma ArrayChangeOnly(data: Json, path: string, index: nat, value: string)
    requires GetNestedValue(data, path).Some? && GetNestedValue(data, path).value.JArr?
    ensures var items := GetNestedValue(data, path).value.items;
      var c := HandleArrayChange(data, path, index, value);
      c.Some? && c.value.path == path && c.value.value.JArr?
      && c.value.value.items[index] == JStr(value)
      && (index < |items| ==> |c.value.value.items| == |items|)
      && forall i :: 0 <= i < |items| && i != index ==> c.value.value.items[i] == items[i]
  {
  }

  /** Adding and then removing the last element gives the array back. */
  lemma AddThenRemove(data: Json, path: string)
    requires AddArrayItem(data, path).Some?
    requires FilterItems(CurrentOr(GetNestedValue(data, path))).Some?
    ensures var items := CurrentOr(GetNestedValue(data, path)).items;
      AddArrayItem(data, path).value.value == JArr(items + [JStr("")])
      && Without(items + [JStr("")], |items|) == items
  {
    var items := CurrentOr(GetNestedValue(data, path)).items;
    assert (items + [JStr("")])[..|items|] == items;
  }

  /**
   * `removeArrayItem` and `removeRole` drop exactly the element at `index`,
   * the others keeping their order; an index outside the array drops nothing.
   */
  lemma RemoveExactlyOne(items: seq<Json>, index: int)
    ensures 0 <= index < |items| ==>
      |Without(items, index)| == |items| - 1
      && (forall i :: 0 <= i < index ==> Without(items, index)[i] == items[i])
      && (forall i :: index <= i < |items| - 1 ==> Without(items, index)[i] == items[i + 1])
    ensures !(0 <= index < |items|) ==> Without(items, index) == items
  {
  }

  /**
   * `handleRoleChange` sets only the chosen field of role `index`: the
   * role's other properties and every other role are kept.
   */
  lemma RoleChangeOnly(data: Json, index: nat, field: RoleField, value: string)
    requires CurrentRoles(data).JArr? && index < |CurrentRoles(data).items|
    ensures var roles := CurrentRoles(data).items;
      var c := HandleRoleChange(data, index, field, value);
      c.Some? && c.value.path == RolesPath && c.value.value.JArr?
      && |c.value.value.items| == |roles|
      && (forall i :: 0 <= i < |roles| && i != index ==> c.value.value.items[i] == roles[i])
      && c.value.value.items[index].JObj?
      && Get(c.value.value.items[index].fields, FieldName(field)) == Some(JStr(value))
      && forall k :: k != FieldName(field) ==> Get(c.value.value.items[index].fields, k) == Get(Spread(roles[index]), k)
  {
  }

  /** `addRole` appends one empty role and keeps the others. */
  lemma AddRoleAppends(data: Json)
    requires CurrentRoles(data).JArr?
    ensures AddRole(data) == Some(Change(RolesPath, JArr(CurrentRoles(data).items + [EmptyRole])))
    ensures Get(EmptyRole.fields, "name") == Some(JStr("")) && Get(EmptyRole.fields, "description") == Some(JStr(""))
  {
  }
}
