/** The board state of kanban-board.component.tsx as values: the map from
    column id to column and the map from column id to that column's ordered
    cards, with the functions that say what a rebuild and a move leave in them. */
module BoardState {

  import opened Wrappers
  import opened CardModels
  import opened ColumnModels

  type ColumnsMap = map<string, ColumnModel>
  type CardsMap = map<string, seq<CardModel>>

  /** Every column is stored under its own id. */
  predicate KeyedById(columns: ColumnsMap)
  {
    forall k :: k in columns ==> columns[k].id == k
  }

  /** The columns map built by inserting `columns` in order, a later column
      replacing an earlier one with the same id. */
  function ColumnsById(columns: seq<ColumnModel>): (m: ColumnsMap)
    ensures KeyedById(m)
  {
    if columns == [] then map[]
    else
      var last := columns[|columns| - 1];
      ColumnsById(columns[..|columns| - 1])[last.id := last]
  }

  /** The columns map holds exactly the given columns' ids, and only given
      columns. */
  lemma {:induction false} ColumnsByIdMembers(columns: seq<ColumnModel>)
    ensures forall k :: k in ColumnsById(columns) ==> ColumnsById(columns)[k] in columns
    ensures forall c :: c in columns ==> c.id in ColumnsById(columns)
  {
    if columns != [] {
      var prefix := columns[..|columns| - 1];
      ColumnsByIdMembers(prefix);
      assert columns == prefix + [columns[|columns| - 1]];
    }
  }

  /** Of several columns with one id, the last one in the input is kept. */
  lemma {:induction false} ColumnsByIdLastWins(columns: seq<ColumnModel>, i: nat)
    requires i < |columns|
    requires forall j :: i < j < |columns| ==> columns[j].id != columns[i].id
    ensures columns[i].id in ColumnsById(columns) && ColumnsById(columns)[columns[i].id] == columns[i]
  {
    var n := |columns| - 1;
    if i < n {
      var prefix := columns[..n];
      assert forall j :: i < j < |prefix| ==> prefix[j] == columns[j];
      ColumnsByIdLastWins(prefix, i);
      assert columns[n].id != columns[i].id;
    }
  }

  /** The columns map after a rebuild: replaced when columns are supplied,
      reused otherwise. */
  function RebuiltColumns(prev: ColumnsMap, columns: Option<seq<ColumnModel>>): (m: ColumnsMap)
    ensures KeyedById(prev) ==> KeyedById(m)
    ensures columns.None? ==> m == prev
  {
    if columns.Some? then ColumnsById(columns.value) else prev
  }

  /** The cards of `cards` whose column is `k`, in input order. */
  function ColumnCards(cards: seq<CardModel>, k: string): (r: seq<CardModel>)
    reads cards
    ensures |r| <= |cards|
  {
    if cards == [] then []
    else
      var last := cards[|cards| - 1];
      ColumnCards(cards[..|cards| - 1], k) + (if last.columnId == k then [last] else [])
  }

  /** A column's list holds exactly the cards that name that column. */
  lemma {:induction false} ColumnCardsMembers(cards: seq<CardModel>, k: string)
    ensures forall c :: c in ColumnCards(cards, k) ==> c in cards && c.columnId == k
    ensures forall c :: c in cards && c.columnId == k ==> c in ColumnCards(cards, k)
  {
    if cards != [] {
      var prefix := cards[..|cards| - 1];
      ColumnCardsMembers(prefix, k);
      assert cards == prefix + [cards[|cards| - 1]];
    }
  }

  /** Filtering by column distributes over concatenation: cards earlier in the
      input stay earlier in their column's list. */
  lemma {:induction false} ColumnCardsAppend(a: seq<CardModel>, b: seq<CardModel>, k: string)
    ensures ColumnCards(a + b, k) == ColumnCards(a, k) + ColumnCards(b, k)
  {
    if b == [] {
      assert a + b == a;
    } else {
      var n := |b| - 1;
      assert (a + b)[..|a + b| - 1] == a + b[..n];
      ColumnCardsAppend(a, b[..n], k);
    }
  }

  /** Appending one card appends it to its own column's list only. */
  lemma ColumnCardsSnoc(cards: seq<CardModel>, c: CardModel, k: string)
    ensures ColumnCards(cards + [c], k) == ColumnCards(cards, k) + (if c.columnId == k then [c] else [])
  {
    assert (cards + [c])[..|cards|] == cards;
  }

  /** Two cards of column `k` keep their relative order in its list. */
  lemma ColumnCardsKeepsOrder(cards: seq<CardModel>, i: nat, j: nat, k: string)
    requires i < j < |cards|
    requires cards[i].columnId == k && cards[j].columnId == k
    ensures ColumnCards(cards, k) ==
      ColumnCards(cards[..i], k) + [cards[i]] + ColumnCards(cards[i + 1..j], k) + [cards[j]]
      + ColumnCards(cards[j + 1..], k)
  {
    assert cards == cards[..i] + [cards[i]] + cards[i + 1..j] + [cards[j]] + cards[j + 1..];
    ColumnCardsAppend(cards[..i] + [cards[i]] + cards[i + 1..j] + [cards[j]], cards[j + 1..], k);
    ColumnCardsAppend(cards[..i] + [cards[i]] + cards[i + 1..j], [cards[j]], k);
    ColumnCardsAppend(cards[..i] + [cards[i]], cards[i + 1..j], k);
    ColumnCardsAppend(cards[..i], [cards[i]], k);
    assert ColumnCards([cards[i]], k) == [cards[i]] by {
      assert [cards[i]][..0] == [];
    }
    assert ColumnCards([cards[j]], k) == [cards[j]] by {
      assert [cards[j]][..0] == [];
    }
  }

  /** A card of column `k` occurs in its list exactly as often as in the input;
      a card of any other column does not occur at all. */
  lemma {:induction false} ColumnCardsCount(cards: seq<CardModel>, k: string, c: CardModel)
    ensures multiset(ColumnCards(cards, k))[c] == if c.columnId == k then multiset(cards)[c] else 0
  {
    if cards != [] {
      var n := |cards| - 1;
      assert cards == cards[..n] + [cards[n]];
      ColumnCardsCount(cards[..n], k, c);
    }
  }

  /** The cards a card list holds, supplied or not. */
  function Supplied(cards: Option<seq<CardModel>>): seq<CardModel>
  {
    if cards.Some? then cards.value else []
  }

  /** The first phase of a rebuild from supplied cards: an entry for each known
      column that receives at least one card. */
  function Partition(cards: seq<CardModel>, known: set<string>): (m: CardsMap)
    reads cards
  {
    map k | k in known && ColumnCards(cards, k) != [] :: ColumnCards(cards, k)
  }

  /** Partitioning one more card appends it to its column's list, creating
      the list when the column is known and had none; a card of an unknown
      column changes nothing. */
  lemma PartitionSnoc(cards: seq<CardModel>, c: CardModel, known: set<string>)
    ensures var m := Partition(cards, known);
      Partition(cards + [c], known) ==
        if c.columnId in known then m[c.columnId := (if c.columnId in m then m[c.columnId] else []) + [c]]
        else m
  {
    var m := Partition(cards, known);
    var m' := Partition(cards + [c], known);
    var r := if c.columnId in known then m[c.columnId := (if c.columnId in m then m[c.columnId] else []) + [c]]
             else m;
    forall k
      ensures (k in m') == (k in r)
      ensures k in m' ==> m'[k] == r[k]
    {
      ColumnCardsSnoc(cards, c, k);
    }
    assert m'.Keys == r.Keys;
  }

  /** The second phase: every key of `keys` lacking a list receives an empty one. */
  function Complete(base: CardsMap, keys: set<string>): (m: CardsMap)
    ensures m.Keys == base.Keys + keys
    ensures forall k :: k in base ==> m[k] == base[k]
    ensures forall k :: k in keys && k !in base ==> m[k] == []
  {
    map k | k in base.Keys + keys :: if k in base then base[k] else []
  }

  /** The cards map after a rebuild over the (new) columns map `columns`:
      the partition of the supplied cards, or the previous map when none are
      supplied, completed by an empty list for every column lacking one. */
  function RebuiltCards(columns: ColumnsMap, prev: CardsMap, cards: Option<seq<CardModel>>): (r: CardsMap)
    reads Supplied(cards)
    ensures columns.Keys <= r.Keys
    ensures cards.Some? ==> r.Keys == columns.Keys
    ensures cards.Some? ==> forall k :: k in r ==> r[k] == ColumnCards(cards.value, k)
    ensures cards.None? ==> r.Keys == prev.Keys + columns.Keys
    ensures cards.None? ==> forall k :: k in prev ==> r[k] == prev[k]
  {
    if cards.Some? then Complete(Partition(cards.value, columns.Keys), columns.Keys)
    else Complete(prev, columns.Keys)
  }

  /** A supplied card whose column is unknown is in no list after a rebuild. */
  lemma RebuildDropsOrphans(columns: ColumnsMap, prev: CardsMap, cards: seq<CardModel>, c: CardModel)
    requires c in cards && c.columnId !in columns
    ensures forall k :: k in RebuiltCards(columns, prev, Some(cards)) ==>
      c !in RebuiltCards(columns, prev, Some(cards))[k]
  {
    forall k | k in RebuiltCards(columns, prev, Some(cards))
      ensures c !in RebuiltCards(columns, prev, Some(cards))[k]
    {
      ColumnCardsMembers(cards, k);
    }
  }

  /** A supplied card whose column is known is in exactly that column's list,
      as many times as it was supplied, and in no other list. */
  lemma RebuildPlacesCard(columns: ColumnsMap, prev: CardsMap, cards: seq<CardModel>, c: CardModel, k: string)
    requires c.columnId in columns && k in columns
    ensures var r := RebuiltCards(columns, prev, Some(cards));
      multiset(r[k])[c] == if k == c.columnId then multiset(cards)[c] else 0
  {
    ColumnCardsCount(cards, k, c);
  }

  /** The cards held in any list of `m`. */
  function CardsIn(m: CardsMap): set<CardModel>
  {
    set k, c | k in m && c in m[k] :: c
  }

  /** The board's data invariant: every card sits only in the list of the
      column it names. */
  ghost predicate ListsMatchColumns(m: CardsMap)
    reads CardsIn(m)
  {
    forall k, c :: k in m && c in m[k] ==> c.columnId == k
  }

  /** A rebuild establishes the invariant: from supplied cards always, and
      from the previous map when that map kept it. */
  lemma RebuildMatchesColumns(columns: ColumnsMap, prev: CardsMap, cards: Option<seq<CardModel>>)
    requires cards.None? ==> ListsMatchColumns(prev)
    ensures ListsMatchColumns(RebuiltCards(columns, prev, cards))
  {
    var r := RebuiltCards(columns, prev, cards);
    forall k: string, c: CardModel | k in r && c in r[k]
      ensures c.columnId == k
    {
      if cards.Some? {
        ColumnCardsMembers(cards.value, k);
      } else {
        assert k in prev;
      }
    }
  }

  /** Under the invariant a card is in no list but its own column's; in
      particular not in the list it is about to be moved to. */
  lemma MatchedCardInOwnListOnly(m: CardsMap, item: CardModel)
    requires ListsMatchColumns(m)
    ensures forall k :: k in m && k != item.columnId ==> item !in m[k]
  {
  }

  /** The list `s` without every card whose id is `id`, order kept. */
  function RemoveById(s: seq<CardModel>, id: string): (r: seq<CardModel>)
    ensures forall c :: c in r ==> c in s && c.id != id
    ensures forall c :: c in s && c.id != id ==> c in r
    ensures |r| <= |s|
  {
    if s == [] then []
    else (if s[0].id == id then [] else [s[0]]) + RemoveById(s[1..], id)
  }

  /** Removal by id keeps every other card's multiplicity. */
  lemma {:induction false} RemoveByIdCount(s: seq<CardModel>, id: string, c: CardModel)
    ensures multiset(RemoveById(s, id))[c] == if c.id == id then 0 else multiset(s)[c]
  {
    if s != [] {
      assert s == [s[0]] + s[1..];
      RemoveByIdCount(s[1..], id, c);
    }
  }

  /** The cards map after moving `item` from column `fromId` to the head of
      column `toId`; None when either list is missing (the source then throws
      before changing anything). */
  function MoveToOtherColumnLists(m: CardsMap, item: CardModel, fromId: string, toId: string): (r: Option<CardsMap>)
    ensures r.Some? <==> fromId in m && toId in m
    ensures r.Some? ==> r.value.Keys == m.Keys
    ensures r.Some? ==> forall k :: k in m && k != fromId && k != toId ==> r.value[k] == m[k]
    ensures r.Some? ==> r.value[toId] == [item] + m[toId]
    ensures r.Some? && fromId != toId ==> r.value[fromId] == RemoveById(m[fromId], item.id)
  {
    if fromId in m && toId in m then
      Some(m[fromId := RemoveById(m[fromId], item.id)][toId := [item] + m[toId]])
    else None
  }

  /** A move keeps the invariant once the card names its destination: the
      other cards still name their own lists, and the card, which was in no
      list but its source, leaves the source and heads the destination. */
  lemma MoveKeepsListsMatching(m: CardsMap, item: CardModel, fromId: string, toId: string)
    requires fromId in m && toId in m && item.columnId == toId
    requires forall k, c :: k in m && c in m[k] && c != item ==> c.columnId == k
    requires forall k :: k in m && k != fromId ==> item !in m[k]
    ensures ListsMatchColumns(MoveToOtherColumnLists(m, item, fromId, toId).value)
  {
  }


  /** A cross-column move of a card that was in its source list exactly once
      (and alone with its id there) and not in the destination leaves it in
      the destination only, and loses or duplicates no card: every card occurs
      in the two lists together as often as before. */
  lemma MoveConservesCards(m: CardsMap, item: CardModel, fromId: string, toId: string)
    requires fromId in m && toId in m && fromId != toId
    requires multiset(m[fromId])[item] == 1 && item !in m[toId]
    requires forall c :: c in m[fromId] && c.id == item.id ==> c == item
    ensures var r := MoveToOtherColumnLists(m, item, fromId, toId).value;
      && item !in r[fromId] && r[toId][0] == item
      && forall c :: multiset(r[fromId])[c] + multiset(r[toId])[c] == multiset(m[fromId])[c] + multiset(m[toId])[c]
  {
    var r := MoveToOtherColumnLists(m, item, fromId, toId).value;
    forall c
      ensures multiset(r[fromId])[c] + multiset(r[toId])[c] == multiset(m[fromId])[c] + multiset(m[toId])[c]
    {
      RemoveByIdCount(m[fromId], item.id, c);
      assert multiset(r[toId]) == multiset{item} + multiset(m[toId]);
      if c.id == item.id && c != item {
        assert c !in m[fromId];
      }
    }
  }

  /** The first index whose element satisfies `p`, or -1: the source's
      `findIndex`, and `indexOf` with `p` an identity test. */
  function FindIndex<T>(s: seq<T>, p: T -> bool): (r: int)
    ensures -1 <= r < |s|
    ensures r == -1 <==> forall j :: 0 <= j < |s| ==> !p(s[j])
    ensures 0 <= r ==> p(s[r]) && forall j :: 0 <= j < r ==> !p(s[j])
  {
    if s == [] then -1
    else if p(s[0]) then 0
    else
      var i := FindIndex(s[1..], p);
      if i == -1 then -1 else i + 1
  }
}
