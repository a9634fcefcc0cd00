/**
 * The stored query history of web-source/app.js: `getQueryHistory`, `saveQueryHistory`, `saveQuery`.
 */
module QueryHistory {

  const LIMIT := 30

  datatype Item = Item(id: string, title: string, status: string, matchedCount: int, createdAt: int)

  function Take(items: seq<Item>, n: nat): (r: seq<Item>)
    ensures r <= items && |r| == if n < |items| then n else |items|
  {
    if n < |items| then items[..n] else items
  }

  /** `items.filter((item) => item.id !== id)` */
  function Without(items: seq<Item>, id: string): (r: seq<Item>)
    ensures |r| <= |items|
    ensures forall x :: x in r <==> x in items && x.id != id
  {
    if items == [] then []
    else if items[0].id == id then Without(items[1..], id)
    else [items[0]] + Without(items[1..], id)
  }

  /** One save without the bound: the new item first, then every item with another id. */
  function Save(history: seq<Item>, item: Item): seq<Item> {
    [item] + Without(history, item.id)
  }

  /** The unbounded most-recently-saved list after a sequence of saves. */
  function Unbounded(saves: seq<Item>): seq<Item> {
    if saves == [] then []
    else Save(Unbounded(saves[..|saves| - 1]), saves[|saves| - 1])
  }

  /** The stored history after a sequence of saves: truncated at every step. */
  function Stored(saves: seq<Item>): seq<Item> {
    if saves == [] then []
    else Take(Save(Stored(saves[..|saves| - 1]), saves[|saves| - 1]), LIMIT)
  }

  ghost predicate DistinctIds(items: seq<Item>) {
    forall i, j :: 0 <= i < j < |items| ==> items[i].id != items[j].id
  }

  lemma {:induction false} WithoutKeepsDistinct(items: seq<Item>, id: string)
    requires DistinctIds(items)
    ensures DistinctIds(Without(items, id))
  {
    if items == [] {
    } else {
      var rest := Without(items[1..], id);
      WithoutKeepsDistinct(items[1..], id);
      assert forall x :: x in rest ==> x in items[1..] && x.id != items[0].id;
    }
  }

  lemma {:induction false} UnboundedDistinct(saves: seq<Item>)
    ensures DistinctIds(Unbounded(saves))
    decreases |saves|
  {
    if saves == [] {
    } else {
      var init, last := saves[..|saves| - 1], saves[|saves| - 1];
      UnboundedDistinct(init);
      WithoutKeepsDistinct(Unbounded(init), last.id);
      assert forall x :: x in Without(Unbounded(init), last.id) ==> x.id != last.id;
    }
  }

  lemma DistinctTail(items: seq<Item>)
    requires DistinctIds(items) && items != []
    ensures DistinctIds(items[1..])
    ensures forall i :: 0 <= i < |items[1..]| ==> items[1..][i].id != items[0].id
  {
  }

  lemma TakeCons(first: Item, rest: seq<Item>, n: nat)
    requires n >= 1
    ensures Take([first] + rest, n) == [first] + Take(rest, n - 1)
  {
  }

  /** Dropping one id from a longer prefix loses at most one item of it. */
  lemma {:induction false} WithoutPrefix(items: seq<Item>, id: string, n: nat)
    requires DistinctIds(items) && n >= 1
    ensures Take(Without(Take(items, n), id), n - 1) == Take(Without(items, id), n - 1)
    decreases |items|
  {
    hide DistinctIds, Take;
    if items != [] {
      var first, rest := items[0], items[1..];
      assert items == [first] + rest;
      DistinctTail(items);
      TakeCons(first, rest, n);
      var cut := Take(rest, n - 1);
      assert ([first] + cut)[1..] == cut;
      if first.id == id {
        AbsentIdRemovesNothing(rest, id);
        AbsentIdRemovesNothing(cut, id);
        TakeTwice(rest, n - 1);
      } else if n > 1 {
        WithoutPrefix(rest, id, n - 1);
        TakeCons(first, Without(cut, id), n - 1);
        TakeCons(first, Without(rest, id), n - 1);
      } else {
        TakeNothing(Without(Take(items, n), id));
        TakeNothing(Without(items, id));
      }
    }
  }

  lemma TakeTwice(items: seq<Item>, n: nat)
    ensures Take(Take(items, n), n) == Take(items, n)
  {
  }

  lemma TakeNothing(items: seq<Item>)
    ensures Take(items, 0) == []
  {
  }

  lemma {:induction false} AbsentIdRemovesNothing(items: seq<Item>, id: string)
    requires forall i :: 0 <= i < |items| ==> items[i].id != id
    ensures Without(items, id) == items
  {
    if items == [] {
    } else {
      AbsentIdRemovesNothing(items[1..], id);
    }
  }

  /** Truncating at every save is the same as truncating once at the end. */
  lemma {:induction false} StoredIsPrefixOfUnbounded(saves: seq<Item>)
    ensures Stored(saves) == Take(Unbounded(saves), LIMIT)
    decreases |saves|
  {
    if saves == [] {
    } else {
      var init, last := saves[..|saves| - 1], saves[|saves| - 1];
      StoredIsPrefixOfUnbounded(init);
      UnboundedDistinct(init);
      var u := Unbounded(init);
      hide Without, Take;
      WithoutPrefix(u, last.id, LIMIT);
      TakeFirst(last, Without(Take(u, LIMIT), last.id));
      TakeFirst(last, Without(u, last.id));
    }
  }

  lemma TakeFirst(item: Item, items: seq<Item>)
    ensures Take([item] + items, LIMIT) == [item] + Take(items, LIMIT - 1)
  {
  }

  // ---------------------------------------------------------------------------------------
  // What the list means
  // ---------------------------------------------------------------------------------------

  /** No later save has the id of save `i`. */
  predicate IsLatest(saves: seq<Item>, i: nat)
    requires i < |saves|
  {
    forall j :: i < j < |saves| ==> saves[j].id != saves[i].id
  }

  /** The latest saves of their ids among the first `n`, most recent first. */
  function Latest(saves: seq<Item>, n: nat): seq<Item>
    requires n <= |saves|
  {
    if n == 0 then []
    else (if IsLatest(saves, n - 1) then [saves[n - 1]] else []) + Latest(saves, n - 1)
  }

  lemma IsLatestAfterOneMore(saves: seq<Item>, x: Item, i: nat)
    requires i < |saves|
    ensures IsLatest(saves + [x], i) <==> IsLatest(saves, i) && x.id != saves[i].id
  {
    var all := saves + [x];
    assert all[|saves|] == x;
    assert forall j :: 0 <= j < |saves| ==> all[j] == saves[j];
  }

  lemma WithoutCons(x: Item, tail: seq<Item>, id: string)
    ensures Without([x] + tail, id) == if x.id == id then Without(tail, id) else [x] + Without(tail, id)
  {
    assert ([x] + tail)[1..] == tail;
  }

  lemma WithoutNothing(id: string)
    ensures Without([], id) == []
  {
  }

  lemma {:induction false} LatestAfterOneMore(saves: seq<Item>, x: Item, n: nat)
    requires n <= |saves|
    ensures Latest(saves + [x], n) == Without(Latest(saves, n), x.id)
    decreases n
  {
    hide IsLatest, Without;
    if n > 0 {
      LatestAfterOneMore(saves, x, n - 1);
      IsLatestAfterOneMore(saves, x, n - 1);
      var tail := Latest(saves, n - 1);
      assert (saves + [x])[n - 1] == saves[n - 1];
      WithoutCons(saves[n - 1], tail, x.id);
      assert [] + tail == tail;
      assert [] + Without(tail, x.id) == Without(tail, x.id);
    } else {
      WithoutNothing(x.id);
    }
  }

  /** After any saves from empty, the history lists the latest save of every id, most recent
      first, cut after thirty; so ids are distinct and each carries its latest item. */
  lemma {:induction false} StoredListsLatestSaves(saves: seq<Item>)
    ensures Unbounded(saves) == Latest(saves, |saves|)
    ensures Stored(saves) == Take(Latest(saves, |saves|), LIMIT)
    ensures DistinctIds(Stored(saves)) && |Stored(saves)| <= LIMIT
    decreases |saves|
  {
    if saves != [] {
      var init, last := saves[..|saves| - 1], saves[|saves| - 1];
      assert saves == init + [last];
      StoredListsLatestSaves(init);
      LatestAfterOneMore(init, last, |init|);
    }
    StoredIsPrefixOfUnbounded(saves);
    UnboundedDistinct(saves);
  }

  class History {
    var stored: seq<Item>  // the array behind the local-storage key

    constructor ()
      ensures stored == []
    {
      stored := [];
    }

    /** `saveQueryHistory` */
    method SaveQueryHistory(items: seq<Item>)
      modifies this
      ensures stored == Take(items, LIMIT)
    {
      stored := if |items| < LIMIT then items else items[..LIMIT];
    }

    /** `saveQuery` */
    method SaveQuery(item: Item)
      modifies this
      ensures stored == Take(Save(old(stored), item), LIMIT)
    {
      var history: seq<Item> := [];
      var items := stored;
      for i := 0 to |items|
        invariant history == Without(items[..i], item.id)
      {
        assert items[..i + 1] == items[..i] + [items[i]];
        WithoutSnoc(items[..i], items[i], item.id);
        if items[i].id != item.id {
          history := history + [items[i]];
        }
      }
      assert items[..|items|] == items;
      history := [item] + history;
      SaveQueryHistory(history);
    }
  }

  lemma {:induction false} WithoutSnoc(items: seq<Item>, x: Item, id: string)
    ensures Without(items + [x], id) == Without(items, id) + (if x.id == id then [] else [x])
  {
    if items == [] {
      assert [] + [x] == [x];
    } else {
      assert (items + [x])[1..] == items[1..] + [x];
      WithoutSnoc(items[1..], x, id);
    }
  }
}
