/**
 * The data-card store (lib/database/data-cards.ts). The `data_cards` table
 * is a field of class `Store`, a sequence of rows in insertion order; each
 * SQL statement becomes the change it makes to that sequence or the rows it
 * selects. How each query ended is an input (`Query`), and so are the fresh
 * id, the clock and `JSON.stringify`.
 */
module DataCards {
  import opened Wrappers
  import opened Json
  import opened Tables

  datatype CardType = Character | Scenario

  datatype Card = Card(
    id: string, userId: int, cardType: CardType, name: string, description: string,
    data: string, isPublic: bool, createdAt: int, updatedAt: int)

  /**
   * How a call to the database ended: a result with `success` true, a
   * result with `success` false, or an exception.
   */
  datatype Query = Succeeded | Unsuccessful | Thrown

  /** `ORDER BY updated_at DESC`. */
  predicate UpdatedLater(a: Card, b: Card) { a.updatedAt >= b.updatedAt }

  /** `ORDER BY created_at DESC`. */
  predicate CreatedLater(a: Card, b: Card) { a.createdAt >= b.createdAt }

  lemma OrdersTotal()
    ensures Total(UpdatedLater) && Total(CreatedLater)
  {
  }

  // ---------------------------------------------------------------------
  // checkPublicCardNameExists
  // ---------------------------------------------------------------------

  function PublicNamed(name: string, t: CardType): Card -> bool {
    (c: Card) => c.name == name && c.cardType == t && c.isPublic
  }

  predicate NameTaken(cards: seq<Card>, name: string, t: CardType) {
    exists i :: 0 <= i < |cards| && cards[i].name == name && cards[i].cardType == t && cards[i].isPublic
  }

  /**
   * `checkPublicCardNameExists`: a count of public rows with this name and
   * type. A failed or thrown query reports "no duplicate".
   */
  function NameExists(cards: seq<Card>, name: string, t: CardType, q: Query): (b: bool)
    ensures b <==> q == Succeeded && NameTaken(cards, name, t)
  {
    q == Succeeded && CountWhere(cards, PublicNamed(name, t)) > 0
  }

  /** No two public cards of one type share a name. */
  predicate PublicNamesUnique(cards: seq<Card>) {
    forall i, j ::
      (0 <= i < j < |cards| && cards[i].isPublic && cards[j].isPublic && cards[i].cardType == cards[j].cardType)
      ==> cards[i].name != cards[j].name
  }

  predicate IdTaken(cards: seq<Card>, id: string) {
    exists i :: 0 <= i < |cards| && cards[i].id == id
  }

  // ---------------------------------------------------------------------
  // createDataCardWithAuthor and createDataCard
  // ---------------------------------------------------------------------

  const DuplicateNameError := "已存在同名的公开数据卡，请修改名称"
  const CreateFailedError := "创建失败"
  const CreateThrewError := "创建数据卡失败"

  datatype Created = Created(id: string) | Failed(error: string)

  /**
   * `{...JSON.parse(data), _author: username, _authorId: userId}`: the
   * author fields override whatever the data held, every other property is
   * the parsed value's own.
   */
  function WithAuthor(parsed: Json, username: string, userId: int): (fields: seq<Field>)
    ensures Get(fields, "_author") == Some(JStr(username))
    ensures Get(fields, "_authorId") == Some(JNum(userId))
    ensures forall k :: k != "_author" && k != "_authorId" ==> Get(fields, k) == Get(Spread(parsed), k)
  {
    Set(Set(Spread(parsed), "_author", JStr(username)), "_authorId", JNum(userId))
  }

  function NewCard(id: string, userId: int, t: CardType, name: string, description: string,
    data: string, isPublic: bool, now: int): Card
  {
    Card(id, userId, t, name, description, data, isPublic, now, now)
  }

  /**
   * `createDataCardWithAuthor` as a change to the table. `parsed` is what
   * `JSON.parse(data)` gave (`None` when it threw); `check` and `insert`
   * say how the two queries ended.
   */
  function CreateWithAuthor(cards: seq<Card>, userId: int, username: string, t: CardType, name: string,
    description: string, parsed: Option<Json>, isPublic: bool, id: string, now: int,
    check: Query, insert: Query, stringify: Json -> string): (Created, seq<Card>)
  {
    if isPublic && NameExists(cards, name, t, check) then (Failed(DuplicateNameError), cards)
    else if parsed.None? then (Failed(CreateThrewError), cards)
    else
      var data := stringify(JObj(WithAuthor(parsed.value, username, userId)));
      match insert
      case Thrown => (Failed(CreateThrewError), cards)
      case Unsuccessful => (Failed(CreateFailedError), cards)
      case Succeeded => (Created(id), cards + [NewCard(id, userId, t, name, description, data, isPublic, now)])
  }

  /**
   * A public card whose name and type a public card already has is refused
   * when the check succeeds, and the table stays as it was.
   */
  lemma CreateRefusesDuplicate(cards: seq<Card>, userId: int, username: string, t: CardType, name: string,
    description: string, parsed: Option<Json>, id: string, now: int, insert: Query, stringify: Json -> string)
    requires NameTaken(cards, name, t)
    ensures CreateWithAuthor(cards, userId, username, t, name, description, parsed, true, id, now,
      Succeeded, insert, stringify) == (Failed(DuplicateNameError), cards)
  {
  }

  /**
   * A create either leaves the table alone or adds exactly one row at the
   * end: the fresh id, owned by `userId`, with the visibility as given and
   * the author fields written into its data. It succeeds exactly when the
   * name is free (or not checked), the data parses and the insert
   * succeeds.
   */
  lemma CreateAddsOneRow(cards: seq<Card>, userId: int, username: string, t: CardType, name: string,
    description: string, parsed: Option<Json>, isPublic: bool, id: string, now: int,
    check: Query, insert: Query, stringify: Json -> string)
    ensures var (r, after) := CreateWithAuthor(cards, userId, username, t, name, description, parsed,
      isPublic, id, now, check, insert, stringify);
      (r.Created? <==> !(isPublic && NameExists(cards, name, t, check)) && parsed.Some? && insert == Succeeded)
      && (r.Failed? ==> after == cards)
      && (r.Created? ==>
            (r.id == id && |after| == |cards| + 1 && after[..|cards|] == cards
             && after[|cards|].id == id && after[|cards|].userId == userId && after[|cards|].isPublic == isPublic
             && after[|cards|].name == name && after[|cards|].cardType == t
             && after[|cards|].data == stringify(JObj(WithAuthor(parsed.value, username, userId)))))
  {
  }

  /** A private card is never checked against the public names. */
  lemma PrivateNotChecked(cards: seq<Card>, userId: int, username: string, t: CardType, name: string,
    description: string, parsed: Json, id: string, now: int, check: Query, stringify: Json -> string)
    ensures CreateWithAuthor(cards, userId, username, t, name, description, Some(parsed), false, id, now,
      check, Succeeded, stringify).0 == Created(id)
  {
  }

  /** When the name check gets through, creating keeps public names unique. */
  lemma CreateKeepsNamesUnique(cards: seq<Card>, userId: int, username: string, t: CardType, name: string,
    description: string, parsed: Option<Json>, isPublic: bool, id: string, now: int,
    insert: Query, stringify: Json -> string)
    requires PublicNamesUnique(cards)
    ensures PublicNamesUnique(CreateWithAuthor(cards, userId, username, t, name, description, parsed,
      isPublic, id, now, Succeeded, insert, stringify).1)
  {
    var after := CreateWithAuthor(cards, userId, username, t, name, description, parsed,
      isPublic, id, now, Succeeded, insert, stringify).1;
    if after != cards {
      forall i, j | 0 <= i < j < |after| && after[i].isPublic && after[j].isPublic
        && after[i].cardType == after[j].cardType
        ensures after[i].name != after[j].name
      {
        if j == |cards| {
          assert after[i] == cards[i];
        }
      }
    }
  }

  /**
   * Fail open: when the name check's query throws, a second public card of
   * the same name and type is created.
   */
  lemma CreateFailsOpen(stringify: Json -> string)
    ensures var first := NewCard("a", 1, Character, "x", "", "{}", true, 0);
      var (r, after) := CreateWithAuthor([first], 2, "u", Character, "x", "", Some(JObj([])), true, "b", 1,
        Thrown, Succeeded, stringify);
      r == Created("b") && !PublicNamesUnique(after)
  {
    var first := NewCard("a", 1, Character, "x", "", "{}", true, 0);
    var after := CreateWithAuthor([first], 2, "u", Character, "x", "", Some(JObj([])), true, "b", 1,
      Thrown, Succeeded, stringify).1;
    assert after[0].name == after[1].name;
  }

  /** `createDataCard`: the older entry point, with no name check and no author fields. */
  function CreatePlain(cards: seq<Card>, userId: int, t: CardType, name: string, description: string,
    data: string, isPublic: bool, id: string, now: int, insert: Query): (Option<string>, seq<Card>)
  {
    if insert == Succeeded then (Some(id), cards + [NewCard(id, userId, t, name, description, data, isPublic, now)])
    else (None, cards)
  }

  /** The plain create stores `data` as given, whatever names the table holds. */
  lemma CreatePlainStoresData(cards: seq<Card>, userId: int, t: CardType, name: string, description: string,
    data: string, isPublic: bool, id: string, now: int, insert: Query)
    ensures var (r, after) := CreatePlain(cards, userId, t, name, description, data, isPublic, id, now, insert);
      (r.Some? <==> insert == Succeeded)
      && (r.Some? ==> r.value == id && after == cards + [Card(id, userId, t, name, description, data, isPublic, now, now)])
      && (r.None? ==> after == cards)
  {
  }

  // ---------------------------------------------------------------------
  // getUserDataCards
  // ---------------------------------------------------------------------

  function OwnedBy(userId: int): Card -> bool {
    (c: Card) => c.userId == userId
  }

  /** `SELECT * ... WHERE user_id = ? ORDER BY updated_at DESC`; `[]` when the query fails. */
  function UserCards(cards: seq<Card>, userId: int, q: Query): seq<Card> {
    if q == Succeeded then SortBy(Where(cards, OwnedBy(userId)), UpdatedLater) else []
  }

  /**
   * The user listing holds exactly that user's cards, each as often as in
   * the table, most recently updated first.
   */
  lemma UserCardsListing(cards: seq<Card>, userId: int)
    ensures var r := UserCards(cards, userId, Succeeded);
      multiset(r) == multiset(Where(cards, OwnedBy(userId)))
      && (forall c :: c in r <==> c in cards && c.userId == userId)
      && (forall i, j :: 0 <= i < j < |r| ==> r[i].updatedAt >= r[j].updatedAt)
  {
    var owned := Where(cards, OwnedBy(userId));
    var r := SortBy(owned, UpdatedLater);
    OrdersTotal();
    SortBySorted(owned, UpdatedLater);
    forall c
      ensures c in r <==> c in cards && c.userId == userId
    {
      assert c in r <==> c in multiset(owned);
    }
  }

  // ---------------------------------------------------------------------
  // updateDataCard, deleteDataCard, verifyCardOwnership
  // ---------------------------------------------------------------------

  function Selects(id: string, userId: int): Card -> bool {
    (c: Card) => c.id == id && c.userId == userId
  }

  predicate Owns(cards: seq<Card>, id: string, userId: int) {
    exists i :: 0 <= i < |cards| && cards[i].id == id && cards[i].userId == userId
  }

  /** `SET name = ?, description = ?, updated_at = now[, is_public = ?]`. */
  function Edited(c: Card, name: string, description: string, isPublic: Option<bool>, now: int): Card {
    c.(name := name, description := description, updatedAt := now,
       isPublic := if isPublic.Some? then isPublic.value else c.isPublic)
  }

  /**
   * `updateDataCard`: the rows with this id and owner are edited; the
   * result is whether any row changed.
   */
  function UpdateCard(cards: seq<Card>, id: string, userId: int, name: string, description: string,
    isPublic: Option<bool>, now: int, q: Query): (bool, seq<Card>)
  {
    if q != Succeeded then (false, cards)
    else
      var after := seq(|cards|, i requires 0 <= i < |cards| =>
        if Selects(id, userId)(cards[i]) then Edited(cards[i], name, description, isPublic, now) else cards[i]);
      (CountWhere(cards, Selects(id, userId)) > 0, after)
  }

  /**
   * An update is true exactly when the owner's row exists; it edits name
   * and description, and the visibility only when one is given, on that row
   * alone.
   */
  lemma UpdateOwnedOnly(cards: seq<Card>, id: string, userId: int, name: string, description: string,
    isPublic: Option<bool>, now: int)
    ensures var (ok, after) := UpdateCard(cards, id, userId, name, description, isPublic, now, Succeeded);
      (ok <==> Owns(cards, id, userId)) && |after| == |cards|
      && (forall i :: 0 <= i < |cards| && !(cards[i].id == id && cards[i].userId == userId) ==> after[i] == cards[i])
      && (forall i :: 0 <= i < |cards| && cards[i].id == id && cards[i].userId == userId ==>
            after[i].name == name && after[i].description == description && after[i].updatedAt == now
            && after[i].id == id && after[i].userId == userId && after[i].data == cards[i].data
            && after[i].isPublic == (if isPublic.Some? then isPublic.value else cards[i].isPublic))
  {
  }

  /**
   * No name check on update: making a private card public can put two
   * public cards of one type under one name.
   */
  lemma UpdateSkipsNameCheck()
    ensures var cards := [NewCard("a", 1, Character, "x", "", "{}", true, 0),
                          NewCard("b", 2, Character, "y", "", "{}", false, 0)];
      var (ok, after) := UpdateCard(cards, "b", 2, "x", "", Some(true), 1, Succeeded);
      PublicNamesUnique(cards) && ok && !PublicNamesUnique(after)
  {
    var cards := [NewCard("a", 1, Character, "x", "", "{}", true, 0),
                  NewCard("b", 2, Character, "y", "", "{}", false, 0)];
    var after := UpdateCard(cards, "b", 2, "x", "", Some(true), 1, Succeeded).1;
    assert Selects("b", 2)(cards[1]);
    assert after[0].name == after[1].name;
  }

  function Keeps(id: string, userId: int): Card -> bool {
    (c: Card) => !(c.id == id && c.userId == userId)
  }

  /** `deleteDataCard`: the rows with this id and owner go; true when any went. */
  function DeleteCard(cards: seq<Card>, id: string, userId: int, q: Query): (bool, seq<Card>) {
    if q != Succeeded then (false, cards)
    else
      var after := Where(cards, Keeps(id, userId));
      (|cards| - |after| > 0, after)
  }

  /**
   * A delete is true exactly when the owner's row existed; it removes that
   * row and keeps every other row, other users' cards included.
   */
  lemma DeleteOwnedOnly(cards: seq<Card>, id: string, userId: int)
    ensures var (ok, after) := DeleteCard(cards, id, userId, Succeeded);
      (ok <==> Owns(cards, id, userId))
      && (forall c :: c in after <==> c in cards && !(c.id == id && c.userId == userId))
      && (forall c :: c in cards && c.userId != userId ==> c in after)
      && (!ok ==> after == cards)
  {
    WhereShrinks(cards, Keeps(id, userId));
    if !Owns(cards, id, userId) {
      WhereAll(cards, Keeps(id, userId));
    }
    if Owns(cards, id, userId) {
      var i :| 0 <= i < |cards| && cards[i].id == id && cards[i].userId == userId;
      assert !Keeps(id, userId)(cards[i]);
    }
  }

  /** `verifyCardOwnership`: a row with this id and owner exists; false when the query fails. */
  function VerifyOwnership(cards: seq<Card>, id: string, userId: int, q: Query): (b: bool)
    ensures b <==> q == Succeeded && Owns(cards, id, userId)
  {
    q == Succeeded && CountWhere(cards, Selects(id, userId)) > 0
  }

  // ---------------------------------------------------------------------
  // getPublicDataCards
  // ---------------------------------------------------------------------

  /** A listed card with its author's name from the `users` join. */
  datatype PublicRow = PublicRow(card: Card, username: string)

  /** `is_public = 1 [AND type = ?]`, and the inner join keeps cards whose user exists. */
  function Listed(users: map<int, string>, t: Option<CardType>): Card -> bool {
    (c: Card) => c.isPublic && (t.None? || c.cardType == t.value) && c.userId in users
  }

  /** Every card on a page of the listing passes the listing's condition. */
  lemma PageListed(cards: seq<Card>, users: map<int, string>, t: Option<CardType>, limit: int, offset: int, i: nat)
    requires i < |Page(SortBy(Where(cards, Listed(users, t)), CreatedLater), limit, offset)|
    ensures var page := Page(SortBy(Where(cards, Listed(users, t)), CreatedLater), limit, offset);
      page[i] in cards && Listed(users, t)(page[i])
  {
    var listed := Where(cards, Listed(users, t));
    var sorted := SortBy(listed, CreatedLater);
    var page := Page(sorted, limit, offset);
    assert page[i] == sorted[Start(|sorted|, offset) + i];
    assert page[i] in multiset(sorted);
    assert page[i] in multiset(listed);
  }

  /** The listed page, sorted newest first, before the join attaches names. */
  function ListedPage(cards: seq<Card>, users: map<int, string>, t: Option<CardType>, limit: int, offset: int): seq<Card> {
    Page(SortBy(Where(cards, Listed(users, t)), CreatedLater), limit, offset)
  }

  /** Each card with its author's name. */
  function Attach(page: seq<Card>, users: map<int, string>): (rows: seq<PublicRow>)
    requires forall i :: 0 <= i < |page| ==> page[i].userId in users
    ensures |rows| == |page|
    ensures forall i :: 0 <= i < |page| ==> rows[i] == PublicRow(page[i], users[page[i].userId])
  {
    seq(|page|, i requires 0 <= i < |page| => PublicRow(page[i], users[page[i].userId]))
  }

  lemma PageUsersKnown(cards: seq<Card>, users: map<int, string>, t: Option<CardType>, limit: int, offset: int)
    ensures forall i :: 0 <= i < |ListedPage(cards, users, t, limit, offset)| ==>
      ListedPage(cards, users, t, limit, offset)[i].userId in users
  {
    forall i | 0 <= i < |ListedPage(cards, users, t, limit, offset)|
      ensures ListedPage(cards, users, t, limit, offset)[i].userId in users
    {
      PageListed(cards, users, t, limit, offset, i);
    }
  }

  /** `getPublicDataCards`; `[]` when the query fails. */
  function PublicCards(cards: seq<Card>, users: map<int, string>, t: Option<CardType>,
    limit: int, offset: int, q: Query): (rows: seq<PublicRow>)
  {
    if q != Succeeded then []
    else
      PageUsersKnown(cards, users, t, limit, offset);
      Attach(ListedPage(cards, users, t, limit, offset), users)
  }

  lemma PublicCardsRows(cards: seq<Card>, users: map<int, string>, t: Option<CardType>, limit: int, offset: int)
    ensures var rows := PublicCards(cards, users, t, limit, offset, Succeeded);
      var page := ListedPage(cards, users, t, limit, offset);
      |rows| == |page| && forall i :: 0 <= i < |rows| ==> rows[i] == PublicRow(page[i], rows[i].username)
  {
    PageUsersKnown(cards, users, t, limit, offset);
  }

  /**
   * The public listing shows only public cards (of the requested type, if
   * any), each with its author's name, and at most `limit` of them.
   */
  lemma PublicListingRows(cards: seq<Card>, users: map<int, string>, t: Option<CardType>, limit: int, offset: int)
    ensures var rows := PublicCards(cards, users, t, limit, offset, Succeeded);
      (limit >= 0 ==> |rows| <= limit)
      && forall i :: 0 <= i < |rows| ==>
           rows[i].card in cards && rows[i].card.isPublic && (t.None? || rows[i].card.cardType == t.value)
           && rows[i].card.userId in users && rows[i].username == users[rows[i].card.userId]
  {
    var page := ListedPage(cards, users, t, limit, offset);
    PageUsersKnown(cards, users, t, limit, offset);
    forall i | 0 <= i < |page|
      ensures page[i] in cards && Listed(users, t)(page[i])
    {
      PageListed(cards, users, t, limit, offset, i);
    }
  }

  /** The public listing is newest first. */
  lemma PublicListingOrder(cards: seq<Card>, users: map<int, string>, t: Option<CardType>, limit: int, offset: int)
    ensures var rows := PublicCards(cards, users, t, limit, offset, Succeeded);
      forall i, j :: 0 <= i < j < |rows| ==> rows[i].card.createdAt >= rows[j].card.createdAt
  {
    var listed := Where(cards, Listed(users, t));
    var sorted := SortBy(listed, CreatedLater);
    assert Sorted(sorted, CreatedLater) by {
      OrdersTotal();
      SortBySorted(listed, CreatedLater);
    }
    PageSorted(sorted, CreatedLater, limit, offset);
    var page := ListedPage(cards, users, t, limit, offset);
    PublicCardsRows(cards, users, t, limit, offset);
    var rows := PublicCards(cards, users, t, limit, offset, Succeeded);
    forall i, j | 0 <= i < j < |rows|
      ensures rows[i].card.createdAt >= rows[j].card.createdAt
    {
      assert CreatedLater(page[i], page[j]);
    }
  }

  // ---------------------------------------------------------------------
  // The table as state
  // ---------------------------------------------------------------------

  class Store {
    var cards: seq<Card>

    constructor ()
      ensures cards == []
    {
      cards := [];
    }

    method CheckPublicCardNameExists(name: string, t: CardType, q: Query) returns (found: bool)
      ensures found <==> q == Succeeded && NameTaken(cards, name, t)
    {
      if q != Succeeded {
        return false;
      }
      var count := CountWhere(cards, PublicNamed(name, t));
      found := count > 0;
    }

    method CreateDataCardWithAuthor(userId: int, username: string, t: CardType, name: string,
      description: string, parsed: Option<Json>, isPublic: bool, id: string, now: int,
      check: Query, insert: Query, stringify: Json -> string) returns (r: Created)
      modifies this
      ensures (r, cards) == CreateWithAuthor(old(cards), userId, username, t, name, description, parsed,
        isPublic, id, now, check, insert, stringify)
    {
      if isPublic {
        var found := CheckPublicCardNameExists(name, t, check);
        if found {
          return Failed(DuplicateNameError);
        }
      }
      if parsed.None? {
        return Failed(CreateThrewError);
      }
      var data := stringify(JObj(WithAuthor(parsed.value, username, userId)));
      match insert {
        case Thrown => r := Failed(CreateThrewError);
        case Unsuccessful => r := Failed(CreateFailedError);
        case Succeeded =>
          cards := cards + [NewCard(id, userId, t, name, description, data, isPublic, now)];
          r := Created(id);
      }
    }

    method CreateDataCard(userId: int, t: CardType, name: string, description: string, data: string,
      isPublic: bool, id: string, now: int, insert: Query) returns (r: Option<string>)
      modifies this
      ensures (r, cards) == CreatePlain(old(cards), userId, t, name, description, data, isPublic, id, now, insert)
    {
      if insert == Succeeded {
        cards := cards + [NewCard(id, userId, t, name, description, data, isPublic, now)];
        r := Some(id);
      } else {
        r := None;
      }
    }

    method GetUserDataCards(userId: int, q: Query) returns (rows: seq<Card>)
      ensures rows == UserCards(cards, userId, q)
      ensures forall c :: c in rows ==> c in cards && c.userId == userId
    {
      if q == Succeeded {
        rows := SortBy(Where(cards, OwnedBy(userId)), UpdatedLater);
        UserCardsListing(cards, userId);
      } else {
        rows := [];
      }
    }

    method UpdateDataCard(id: string, userId: int, name: string, description: string,
      isPublic: Option<bool>, now: int, q: Query) returns (ok: bool)
      modifies this
      ensures (ok, cards) == UpdateCard(old(cards), id, userId, name, description, isPublic, now, q)
    {
      var (changed, after) := UpdateCard(cards, id, userId, name, description, isPublic, now, q);
      ok, cards := changed, after;
    }

    method DeleteDataCard(id: string, userId: int, q: Query) returns (ok: bool)
      modifies this
      ensures (ok, cards) == DeleteCard(old(cards), id, userId, q)
    {
      if q != Succeeded {
        return false;
      }
      var before := |cards|;
      cards := Where(cards, Keeps(id, userId));
      ok := before - |cards| > 0;
    }

    method VerifyCardOwnership(cardId: string, userId: int, q: Query) returns (ok: bool)
      ensures ok <==> q == Succeeded && Owns(cards, cardId, userId)
    {
      ok := VerifyOwnership(cards, cardId, userId, q);
    }

    method GetPublicDataCards(users: map<int, string>, t: Option<CardType>, limit: int, offset: int, q: Query)
      returns (rows: seq<PublicRow>)
      ensures rows == PublicCards(cards, users, t, limit, offset, q)
      ensures forall i :: 0 <= i < |rows| ==> rows[i].card in cards && rows[i].card.isPublic
    {
      rows := PublicCards(cards, users, t, limit, offset, q);
      if q == Succeeded {
        PublicListingRows(cards, users, t, limit, offset);
      }
    }
  }
}
