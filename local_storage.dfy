/**
 * The browser-side record of liked and used data cards (lib/localStorage.ts).
 * Each list is kept under its own key of `localStorage` as the JSON text
 * of a list of `{cardId, timestamp}` entries. What a key holds is modelled
 * by what `JSON.parse` makes of it; the clock is a parameter.
 */
module LocalStorage {
  const LikedKey := "mahoshojo_liked_cards"
  const UsedKey := "mahoshojo_used_cards"

  datatype Interaction = Interaction(cardId: string, timestamp: int)

  /**
   * One element of a stored list: an interaction, `null` (reading its
   * `cardId` throws), or any other value whose `cardId` is not a string
   * (it contributes `undefined` or a non-string, which no card id equals).
   */
  datatype Element = Entry(interaction: Interaction) | Nullish | Other

  /**
   * What `localStorage.getItem(key)` returns, as the code reads it: nothing
   * (`null` or the empty text), the text of a JSON array, or text that does
   * not parse or parses to something other than an array.
   */
  datatype Stored = Empty | List(elements: seq<Element>) | Unreadable

  /** The stored text for a key; a missing key reads as `null`. */
  function Lookup(store: map<string, Stored>, key: string): Stored {
    if key in store then store[key] else Empty
  }

  /** Whether mapping `item => item.cardId` over the list throws. */
  predicate HasNullish(elements: seq<Element>) {
    exists i :: 0 <= i < |elements| && elements[i].Nullish?
  }

  function CardIds(elements: seq<Element>): (ids: set<string>)
    ensures forall id :: id in ids <==>
      exists i :: 0 <= i < |elements| && elements[i].Entry? && elements[i].interaction.cardId == id
  {
    set i | 0 <= i < |elements| && elements[i].Entry? :: elements[i].interaction.cardId
  }

  /**
   * `getLikedCards` / `getUsedCards`: the card ids under `key`; the empty
   * set without a window, for a missing or empty entry, for one that cannot
   * be read and for a list holding `null`.
   */
  function Cards(hasWindow: bool, store: map<string, Stored>, key: string): (ids: set<string>)
    ensures !hasWindow || !Lookup(store, key).List? || HasNullish(Lookup(store, key).elements) ==> ids == {}
    ensures hasWindow && Lookup(store, key).List? && !HasNullish(Lookup(store, key).elements) ==>
      ids == CardIds(Lookup(store, key).elements)
  {
    var stored := Lookup(store, key);
    if hasWindow && stored.List? && !HasNullish(stored.elements) then CardIds(stored.elements) else {}
  }

  /**
   * `addLikedCard` / `addUsedCard`: whether the card was added, and the
   * store afterwards. `writeFails` says whether `setItem` throws.
   */
  function Add(hasWindow: bool, store: map<string, Stored>, key: string, cardId: string, now: int,
               writeFails: bool): (bool, map<string, Stored>)
  {
    if !hasWindow || cardId in Cards(hasWindow, store, key) || Lookup(store, key).Unreadable? then (false, store)
    else
      var elements := (if Lookup(store, key).List? then Lookup(store, key).elements else [])
        + [Entry(Interaction(cardId, now))];
      if writeFails then (false, store) else (true, store[key := List(elements)])
  }

  /**
   * An add succeeds exactly when there is a window, the card is not yet
   * listed, the entry is empty or an array and the write goes through; then
   * it appends one entry at the end and keeps the other elements. Otherwise
   * nothing changes.
   */
  lemma AddResult(hasWindow: bool, store: map<string, Stored>, key: string, cardId: string, now: int, writeFails: bool)
    ensures var (ok, after) := Add(hasWindow, store, key, cardId, now, writeFails);
      (ok <==> hasWindow && cardId !in Cards(hasWindow, store, key) && !Lookup(store, key).Unreadable? && !writeFails)
      && (!ok ==> after == store)
      && (ok ==> after == store[key := List(
                   (if Lookup(store, key).List? then Lookup(store, key).elements else [])
                   + [Entry(Interaction(cardId, now))])])
  {
  }

  /**
   * After a successful add over a list without `null` the card reads as
   * present, and only the new card was added.
   */
  lemma AddThenHas(hasWindow: bool, store: map<string, Stored>, key: string, cardId: string, now: int, writeFails: bool)
    requires !(Lookup(store, key).List? && HasNullish(Lookup(store, key).elements))
    ensures var (ok, after) := Add(hasWindow, store, key, cardId, now, writeFails);
      ok ==> Cards(hasWindow, after, key) == Cards(hasWindow, store, key) + {cardId}
  {
    var (ok, after) := Add(hasWindow, store, key, cardId, now, writeFails);
    if ok {
      var list := if Lookup(store, key).List? then Lookup(store, key).elements else [];
      var list' := list + [Entry(Interaction(cardId, now))];
      assert list'[|list|].interaction.cardId == cardId;
      assert !HasNullish(list') by {
        forall i | 0 <= i < |list'| ensures !list'[i].Nullish? {
          if i < |list| {
            assert list'[i] == list[i];
          }
        }
      }
      forall id | id in CardIds(list)
        ensures id in CardIds(list')
      {
        var i :| 0 <= i < |list| && list[i].Entry? && list[i].interaction.cardId == id;
        assert list'[i] == list[i];
      }
      forall id | id in CardIds(list')
        ensures id in CardIds(list) + {cardId}
      {
        var i :| 0 <= i < |list'| && list'[i].Entry? && list'[i].interaction.cardId == id;
        if i < |list| {
          assert list[i] == list'[i];
        }
      }
    }
  }

  /**
   * A stored list holding `null` reads as no cards, yet an add over it
   * still appends and succeeds; the card then still does not read as present.
   */
  lemma NullishListHidesCards(store: map<string, Stored>, key: string, cardId: string, now: int)
    requires Lookup(store, key).List? && HasNullish(Lookup(store, key).elements)
    ensures Cards(true, store, key) == {}
    ensures var (ok, after) := Add(true, store, key, cardId, now, false);
      ok && Cards(true, after, key) == {}
  {
    var list := Lookup(store, key).elements;
    var i :| 0 <= i < |list| && list[i].Nullish?;
    assert (list + [Entry(Interaction(cardId, now))])[i].Nullish?;
  }

  /** The two lists live under different keys: adding to one leaves the other's cards as they were. */
  lemma KeysIndependent(hasWindow: bool, store: map<string, Stored>, key: string, other: string, cardId: string,
                        now: int, writeFails: bool)
    requires key != other
    ensures Cards(hasWindow, Add(hasWindow, store, key, cardId, now, writeFails).1, other) == Cards(hasWindow, store, other)
  {
  }

  /** An entry that does not parse to an array reads as no cards, and adding to it fails. */
  lemma UnreadableEntry(store: map<string, Stored>, key: string, cardId: string, now: int, writeFails: bool)
    requires Lookup(store, key).Unreadable?
    ensures Cards(true, store, key) == {}
    ensures Add(true, store, key, cardId, now, writeFails) == (false, store)
  {
  }

  /** The browser storage, with the window's presence fixed for the page's life. */
  class CardStore {
    const hasWindow: bool
    var store: map<string, Stored>

    constructor (hasWindow: bool, store: map<string, Stored>)
      ensures this.hasWindow == hasWindow && this.store == store
    {
      this.hasWindow := hasWindow;
      this.store := store;
    }

    method GetLikedCards() returns (ids: set<string>)
      ensures ids == Cards(hasWindow, store, LikedKey)
    {
      ids := ReadCards(LikedKey);
    }

    method GetUsedCards() returns (ids: set<string>)
      ensures ids == Cards(hasWindow, store, UsedKey)
    {
      ids := ReadCards(UsedKey);
    }

    method ReadCards(key: string) returns (ids: set<string>)
      ensures ids == Cards(hasWindow, store, key)
    {
      if !hasWindow {
        return {};
      }
      var stored := Lookup(store, key);
      if stored.List? && !HasNullish(stored.elements) {
        ids := set i | 0 <= i < |stored.elements| && stored.elements[i].Entry? :: stored.elements[i].interaction.cardId;
      } else {
        ids := {};
      }
    }

    /** The shared body of `addLikedCard` and `addUsedCard`. */
    method AddCard(key: string, cardId: string, now: int, writeFails: bool) returns (added: bool)
      modifies this
      ensures (added, store) == Add(hasWindow, old(store), key, cardId, now, writeFails)
    {
      if !hasWindow {
        return false;
      }
      var cards := ReadCards(key);
      if cardId in cards {
        return false;
      }
      var stored := Lookup(store, key);
      if stored.Unreadable? {
        return false;
      }
      var elements := if stored.List? then stored.elements else [];
      elements := elements + [Entry(Interaction(cardId, now))];
      if writeFails {
        return false;
      }
      store := store[key := List(elements)];
      added := true;
    }

    method AddLikedCard(cardId: string, now: int, writeFails: bool) returns (added: bool)
      modifies this
      ensures (added, store) == Add(hasWindow, old(store), LikedKey, cardId, now, writeFails)
    {
      added := AddCard(LikedKey, cardId, now, writeFails);
    }

    method AddUsedCard(cardId: string, now: int, writeFails: bool) returns (added: bool)
      modifies this
      ensures (added, store) == Add(hasWindow, old(store), UsedKey, cardId, now, writeFails)
    {
      added := AddCard(UsedKey, cardId, now, writeFails);
    }

    method IsCardLiked(cardId: string) returns (liked: bool)
      ensures liked <==> cardId in Cards(hasWindow, store, LikedKey)
    {
      var cards := GetLikedCards();
      liked := cardId in cards;
    }

    method IsCardUsed(cardId: string) returns (used: bool)
      ensures used <==> cardId in Cards(hasWindow, store, UsedKey)
    {
      var cards := GetUsedCards();
      used := cardId in cards;
    }
  }
}
