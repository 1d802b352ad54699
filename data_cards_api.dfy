/**
 * The `/api/data-cards` endpoint (pages/api/data-cards.ts): a decision
 * table from the request and the store's answers to a status code, plus
 * the change the store makes. The user lookup by key and the card capacity
 * are inputs; so are the parsed body, the fresh id, the clock and how each
 * database query ended.
 */
module DataCardsApi {
  import opened Wrappers
  import opened JsText
  import opened Json
  import opened DataCards
  import opened Tables

  datatype User = User(id: int, username: string)

  datatype Method = Get | Post | Put | Delete | OtherMethod(name: string)

  /**
   * A request: its `Authorization` header, its method, the body as
   * `req.json()` parsed it (`None` when that threw) and the `id` query
   * parameter.
   */
  datatype Request = Request(authorization: Option<string>, verb: Method, body: Option<Json>, idParam: Option<string>)

  datatype Body =
    | Error(message: string)
    | Cards(cards: seq<Card>)
    | NewId(id: string)
    | Done(message: string)

  datatype Response = Response(status: int, body: Body)

  /** How each database call of one request ended. */
  datatype Queries = Queries(list: Query, check: Query, write: Query)

  const BearerPrefix := "Bearer "

  /**
   * `getUserFromAuth`: a header that is missing, empty or not `Bearer `
   * gives no user; otherwise the key after the 7-character prefix is
   * looked up.
   */
  function UserFromAuth(header: Option<string>, lookup: string -> Option<User>): (u: Option<User>)
    ensures header.None? || !StartsWith(header.value, BearerPrefix) ==> u.None?
    ensures header.Some? && StartsWith(header.value, BearerPrefix) ==> u == lookup(header.value[7..])
  {
    if header.None? || header.value == "" || !StartsWith(header.value, BearerPrefix) then None
    else lookup(header.value[|BearerPrefix|..])
  }

  /** `body[k]` after destructuring; `None` is `undefined`. */
  function Field(body: Json, k: string): Option<Json> {
    Member(Some(body), k)
  }

  /**
   * A value bound as an SQL text parameter: a string as itself, anything
   * else as `String(v)`.
   */
  function Text(v: Option<Json>): string {
    if v.Some? then JsString(v.value) else ""
  }

  function ParseType(v: Option<Json>): Option<CardType> {
    if v == Some(JStr("character")) then Some(Character)
    else if v == Some(JStr("scenario")) then Some(Scenario)
    else None
  }

  const Unauthorized := Response(401, Error("未授权"))
  const MissingParams := Response(400, Error("缺少必要参数"))
  const InvalidType := Response(400, Error("无效的数据卡类型"))
  const MissingId := Response(400, Error("缺少数据卡ID"))
  const NotFound := Response(404, Error("数据卡不存在或无权访问"))
  const NotAllowed := Response(405, Error("Method not allowed"))

  /** The 429 message names the capacity. */
  function CapacityReached(capacity: int): Response {
    Response(429, Error("数据卡数量已达上限（" + IntToString(capacity) + "个），请删除部分数据卡后再试"))
  }

  /** A failed create: 409 when the error mentions a duplicate name (`同名`), 500 otherwise. */
  function CreateFailure(error: string): Response {
    Response(if Contains(error, "同名") then 409 else 500, Error(if error == "" then CreateThrewError else error))
  }

  /**
   * The POST branch. The body is `JSON.stringify`-ed by the handler and
   * parsed back by the store, which gives the same JSON value.
   */
  function HandlePost(cards: seq<Card>, user: User, body: Option<Json>, capacity: int, id: string, now: int,
    db: Queries, stringify: Json -> string): (Response, seq<Card>)
  {
    if body.None? || body.value.JNull? then (Response(500, Error(CreateThrewError)), cards)
    else
      var b := body.value;
      if !TruthyOpt(Field(b, "type")) || !TruthyOpt(Field(b, "name")) || !TruthyOpt(Field(b, "data")) then
        (MissingParams, cards)
      else if ParseType(Field(b, "type")).None? then (InvalidType, cards)
      else if |UserCards(cards, user.id, db.list)| >= capacity then (CapacityReached(capacity), cards)
      else CreateReply(cards, user, b, id, now, db, stringify)
  }

  /**
   * The create step of the POST branch: 201 with one new row owned by the
   * user, or 409/500 with the table unchanged.
   */
  function CreateReply(cards: seq<Card>, user: User, b: Json, id: string, now: int, db: Queries,
    stringify: Json -> string): (r: (Response, seq<Card>))
    requires ParseType(Field(b, "type")).Some?
    ensures r.0.status == 201 || ((r.0.status == 409 || r.0.status == 500) && r.1 == cards)
    ensures r.0.status == 201 ==>
      |r.1| == |cards| + 1 && r.1[..|cards|] == cards && r.1[|cards|].userId == user.id && r.1[|cards|].id == id
  {
    var description := if TruthyOpt(Field(b, "description")) then Text(Field(b, "description")) else "";
    CreateAddsOneRow(cards, user.id, user.username, ParseType(Field(b, "type")).value,
      Text(Field(b, "name")), description, Field(b, "data"), TruthyOpt(Field(b, "isPublic")), id, now,
      db.check, db.write, stringify);
    var (created, after) := CreateWithAuthor(cards, user.id, user.username, ParseType(Field(b, "type")).value,
      Text(Field(b, "name")), description, Field(b, "data"), TruthyOpt(Field(b, "isPublic")), id, now,
      db.check, db.write, stringify);
    match created
    case Failed(error) => (CreateFailure(error), after)
    case Created(newId) => (Response(201, NewId(newId)), after)
  }

  /** The PUT branch: `isPublic` is applied unless it is `undefined`. */
  function HandlePut(cards: seq<Card>, user: User, body: Option<Json>, now: int, db: Queries): (Response, seq<Card>) {
    if body.None? || body.value.JNull? then (Response(500, Error("更新数据卡失败")), cards)
    else
      var b := body.value;
      if !TruthyOpt(Field(b, "id")) then (MissingId, cards)
      else
        var isPublic := if Field(b, "isPublic").Some? then Some(Truthy(Field(b, "isPublic").value)) else None;
        var (ok, after) := UpdateCard(cards, Text(Field(b, "id")), user.id, Text(Field(b, "name")),
          Text(Field(b, "description")), isPublic, now, db.write);
        if !ok then (NotFound, after) else (Response(200, Done("数据卡更新成功")), after)
  }

  /** The DELETE branch: the id comes from the query string. */
  function HandleDelete(cards: seq<Card>, user: User, idParam: Option<string>, db: Queries): (Response, seq<Card>) {
    if idParam.None? || idParam.value == "" then (MissingId, cards)
    else
      var (ok, after) := DeleteCard(cards, idParam.value, user.id, db.write);
      if !ok then (NotFound, after) else (Response(200, Done("数据卡删除成功")), after)
  }

  /** `handler`: authentication first, then dispatch on the method. */
  function Handle(cards: seq<Card>, req: Request, lookup: string -> Option<User>, capacity: int,
    id: string, now: int, db: Queries, stringify: Json -> string): (Response, seq<Card>)
  {
    var user := UserFromAuth(req.authorization, lookup);
    if user.None? then (Unauthorized, cards)
    else
      match req.verb
      case Get => (Response(200, Cards(UserCards(cards, user.value.id, db.list))), cards)
      case Post => HandlePost(cards, user.value, req.body, capacity, id, now, db, stringify)
      case Put => HandlePut(cards, user.value, req.body, now, db)
      case Delete => HandleDelete(cards, user.value, req.idParam, db)
      case OtherMethod(_) => (NotAllowed, cards)
  }

  /** Without a `Bearer ` key that names a user, every method gets 401 and nothing changes. */
  lemma UnauthenticatedRejected(cards: seq<Card>, req: Request, lookup: string -> Option<User>, capacity: int,
    id: string, now: int, db: Queries, stringify: Json -> string)
    requires UserFromAuth(req.authorization, lookup).None?
    ensures Handle(cards, req, lookup, capacity, id, now, db, stringify) == (Unauthorized, cards)
  {
  }

  /** A method other than GET, POST, PUT and DELETE gets 405, but only once authenticated. */
  lemma OtherMethodsRejected(cards: seq<Card>, req: Request, lookup: string -> Option<User>, capacity: int,
    id: string, now: int, db: Queries, stringify: Json -> string)
    requires req.verb.OtherMethod?
    ensures Handle(cards, req, lookup, capacity, id, now, db, stringify).0.status
      == if UserFromAuth(req.authorization, lookup).None? then 401 else 405
  {
  }

  /** Every answer other than 200 and 201 leaves the table as it was. */
  lemma FailuresChangeNothing(cards: seq<Card>, req: Request, lookup: string -> Option<User>, capacity: int,
    id: string, now: int, db: Queries, stringify: Json -> string)
    ensures var (resp, after) := Handle(cards, req, lookup, capacity, id, now, db, stringify);
      resp.status != 200 && resp.status != 201 ==> after == cards
  {
    var user := UserFromAuth(req.authorization, lookup);
    if user.Some? {
      match req.verb
      case Post => PostFailuresChangeNothing(cards, user.value, req.body, capacity, id, now, db, stringify);
      case Put => PutFailuresChangeNothing(cards, user.value, req.body, now, db);
      case Delete => DeleteFailuresChangeNothing(cards, user.value, req.idParam, db);
      case _ =>
    }
  }

  /** A POST answered with anything but 201 creates nothing. */
  lemma PostFailuresChangeNothing(cards: seq<Card>, user: User, body: Option<Json>, capacity: int, id: string,
    now: int, db: Queries, stringify: Json -> string)
    ensures var (resp, after) := HandlePost(cards, user, body, capacity, id, now, db, stringify);
      resp.status != 200 && resp.status != 201 ==> after == cards
  {
  }

  /** A PUT answered with anything but 200 updates nothing. */
  lemma PutFailuresChangeNothing(cards: seq<Card>, user: User, body: Option<Json>, now: int, db: Queries)
    ensures var (resp, after) := HandlePut(cards, user, body, now, db);
      resp.status != 200 ==> after == cards
  {
    if body.Some? && !body.value.JNull? && TruthyOpt(Field(body.value, "id")) {
      var b := body.value;
      var isPublic := if Field(b, "isPublic").Some? then Some(Truthy(Field(b, "isPublic").value)) else None;
      UpdateOwnedOnly(cards, Text(Field(b, "id")), user.id, Text(Field(b, "name")),
        Text(Field(b, "description")), isPublic, now);
      var (ok, after) := UpdateCard(cards, Text(Field(b, "id")), user.id, Text(Field(b, "name")),
        Text(Field(b, "description")), isPublic, now, db.write);
      if !ok && db.write == Succeeded {
        assert forall i :: 0 <= i < |cards| ==> after[i] == cards[i];
      }
    }
  }

  /** A DELETE answered with anything but 200 removes nothing. */
  lemma DeleteFailuresChangeNothing(cards: seq<Card>, user: User, idParam: Option<string>, db: Queries)
    ensures var (resp, after) := HandleDelete(cards, user, idParam, db);
      resp.status != 200 ==> after == cards
  {
    if idParam.Some? && idParam.value != "" && db.write == Succeeded {
      DeleteOwnedOnly(cards, idParam.value, user.id);
    }
  }

  /** POST without a truthy `type`, `name` or `data` gets 400. */
  lemma PostNeedsFields(cards: seq<Card>, user: User, b: Json, capacity: int, id: string, now: int,
    db: Queries, stringify: Json -> string)
    requires !b.JNull?
    requires !TruthyOpt(Field(b, "type")) || !TruthyOpt(Field(b, "name")) || !TruthyOpt(Field(b, "data"))
    ensures HandlePost(cards, user, Some(b), capacity, id, now, db, stringify) == (MissingParams, cards)
  {
  }

  /** POST with a type other than `character` or `scenario` gets 400. */
  lemma PostNeedsKnownType(cards: seq<Card>, user: User, b: Json, capacity: int, id: string, now: int,
    db: Queries, stringify: Json -> string)
    requires !b.JNull? && TruthyOpt(Field(b, "name")) && TruthyOpt(Field(b, "data"))
    requires Field(b, "type").Some? && Field(b, "type").value.JStr?
    requires Field(b, "type").value.s != "" && Field(b, "type").value.s != "character" && Field(b, "type").value.s != "scenario"
    ensures HandlePost(cards, user, Some(b), capacity, id, now, db, stringify) == (InvalidType, cards)
  {
    assert ParseType(Field(b, "type")).None?;
  }

  /**
   * A user who owns `capacity` cards or more gets 429 and nothing is
   * created, when the listing query succeeds.
   */
  lemma PostAtCapacity(cards: seq<Card>, user: User, b: Json, capacity: int, id: string, now: int,
    db: Queries, stringify: Json -> string)
    requires !b.JNull? && TruthyOpt(Field(b, "type")) && TruthyOpt(Field(b, "name")) && TruthyOpt(Field(b, "data"))
    requires ParseType(Field(b, "type")).Some? && db.list == Succeeded
    requires |Where(cards, OwnedBy(user.id))| >= capacity
    ensures HandlePost(cards, user, Some(b), capacity, id, now, db, stringify) == (CapacityReached(capacity), cards)
  {
  }

  /**
   * With a successful listing, a POST never takes a user above the
   * capacity.
   */
  lemma PostKeepsCapacity(cards: seq<Card>, user: User, body: Option<Json>, capacity: int, id: string, now: int,
    db: Queries, stringify: Json -> string)
    requires db.list == Succeeded && |Where(cards, OwnedBy(user.id))| <= capacity
    ensures |Where(HandlePost(cards, user, body, capacity, id, now, db, stringify).1, OwnedBy(user.id))| <= capacity
  {
    var (resp, after) := HandlePost(cards, user, body, capacity, id, now, db, stringify);
    if after != cards {
      assert (resp, after) == CreateReply(cards, user, body.value, id, now, db, stringify);
      assert |Where(cards, OwnedBy(user.id))| < capacity;
      OneMoreRow(cards, after, user.id, capacity);
    }
  }

  /** A non-empty sequence is its prefix followed by its last element. */
  lemma LastSplit<T>(s: seq<T>)
    requires |s| > 0
    ensures s == s[..|s| - 1] + [s[|s| - 1]]
  {
  }

  /** One row appended to a table where the user owns fewer than `capacity` rows. */
  lemma OneMoreRow(cards: seq<Card>, after: seq<Card>, userId: int, capacity: int)
    requires |after| == |cards| + 1 && after[..|cards|] == cards
    requires |Where(cards, OwnedBy(userId))| < capacity
    ensures |Where(after, OwnedBy(userId))| <= capacity
  {
    LastSplit(after);
    WhereAppend(cards, after[|cards|], OwnedBy(userId));
  }

  /**
   * A failed create gets 409 exactly when its error mentions a duplicate
   * name, so the duplicate-name refusal is a 409 and other failures 500.
   */
  lemma CreateFailureStatus(error: string)
    ensures CreateFailure(error).status == 409 <==> Contains(error, "同名")
    ensures CreateFailure(DuplicateNameError).status == 409
    ensures CreateFailure(CreateFailedError).status == 500 && CreateFailure(CreateThrewError).status == 500
  {
    assert DuplicateNameError[3..5] == "同名";
    assert OccursAt(DuplicateNameError, "同名", 3);
    NoDuplicateMention(CreateFailedError);
    NoDuplicateMention(CreateThrewError);
  }

  lemma NoDuplicateMention(error: string)
    requires forall i :: 0 <= i < |error| ==> error[i] != '同'
    ensures !Contains(error, "同名")
  {
    forall i | 0 <= i <= |error| - 2
      ensures !OccursAt(error, "同名", i)
    {
      assert error[i] != "同名"[0];
    }
  }

  /** PUT and DELETE without an id get 400; a card the user does not own gets 404. */
  lemma PutAndDeleteNeedOwnedCard(cards: seq<Card>, user: User, b: Json, idParam: Option<string>, now: int, db: Queries)
    requires !b.JNull? && db.write == Succeeded
    ensures !TruthyOpt(Field(b, "id")) ==> HandlePut(cards, user, Some(b), now, db) == (MissingId, cards)
    ensures TruthyOpt(Field(b, "id")) && !Owns(cards, Text(Field(b, "id")), user.id) ==>
      HandlePut(cards, user, Some(b), now, db).0 == NotFound
    ensures idParam.None? || idParam == Some("") ==> HandleDelete(cards, user, idParam, db) == (MissingId, cards)
    ensures idParam.Some? && idParam.value != "" && !Owns(cards, idParam.value, user.id) ==>
      HandleDelete(cards, user, idParam, db) == (NotFound, cards)
  {
    if idParam.Some? && idParam.value != "" {
      DeleteOwnedOnly(cards, idParam.value, user.id);
    }
    if TruthyOpt(Field(b, "id")) {
      var isPublic := if Field(b, "isPublic").Some? then Some(Truthy(Field(b, "isPublic").value)) else None;
      UpdateOwnedOnly(cards, Text(Field(b, "id")), user.id, Text(Field(b, "name")),
        Text(Field(b, "description")), isPublic, now);
    }
  }
}
