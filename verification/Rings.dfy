/** list.h: circular doubly linked lists in the heap. */
module Rings {
  import opened Seqs

  class Hook {
    var prev: Hook?
    var next: Hook?

    constructor ()
      ensures prev == null && next == null
    {
      prev, next := null, null;
    }
  }

  function Succ(i: nat, n: nat): nat { if i + 1 == n then 0 else i + 1 }

  /** The hooks xs, in this order, make up one ring. */
  ghost predicate Ring(xs: seq<Hook>) reads xs {
    && |xs| > 0 && Distinct<Hook>(xs)
    && forall i :: 0 <= i < |xs| ==> xs[i].next == xs[Succ(i, |xs|)] && xs[Succ(i, |xs|)].prev == xs[i]
  }

  /** A list is the ring of its own hook and those of its items. */
  ghost predicate List(list: Hook, items: seq<Hook>) reads [list] + items { Ring([list] + items) }

  /** A ring can be entered anywhere. */
  lemma Rotate(xs: seq<Hook>, ys: seq<Hook>)
    requires Ring(xs + ys)
    ensures Ring(ys + xs)
  {
    var u, v := xs + ys, ys + xs;
    var n, k := |u|, |xs|;
    forall i, j | 0 <= i < j < n ensures v[i] != v[j] {
      assert v[i] == if i < n - k then u[i + k] else u[i + k - n];
      assert v[j] == if j < n - k then u[j + k] else u[j + k - n];
    }
    forall i | 0 <= i < n ensures v[i].next == v[Succ(i, n)] && v[Succ(i, n)].prev == v[i] {
      var a := if i < n - k then i + k else i + k - n;
      assert v[i] == u[a];
      assert v[Succ(i, n)] == u[Succ(a, n)];
    }
  }

  /** The links of a list, end by end. */
  ghost predicate Links(list: Hook, items: seq<Hook>) reads list, items {
    && Distinct<Hook>(items) && list !in items
    && (items == [] ==> list.next == list && list.prev == list)
    && (items != [] ==>
          var last := items[|items| - 1];
          list.next == items[0] && items[0].prev == list && list.prev == last && last.next == list)
    && (forall i :: 0 <= i < |items| - 1 ==> items[i].next == items[i + 1] && items[i + 1].prev == items[i])
  }

  lemma ListLinks(list: Hook, items: seq<Hook>)
    ensures List(list, items) <==> Links(list, items)
  {
    hide Ring, Links;
    if List(list, items) { RingLinks(list, items); }
    if Links(list, items) { LinksRing(list, items); }
  }

  lemma RingLinks(list: Hook, items: seq<Hook>)
    requires Ring([list] + items)
    ensures Links(list, items)
  {
    var xs := [list] + items;
    var n := |xs|;
    assert xs[0].next == xs[Succ(0, n)] && xs[n - 1].next == xs[Succ(n - 1, n)] && list.prev == xs[n - 1];
    forall i | 0 <= i < |items| - 1 ensures items[i].next == items[i + 1] && items[i + 1].prev == items[i] {
      assert xs[i + 1].next == xs[Succ(i + 1, n)] && xs[Succ(i + 1, n)].prev == xs[i + 1];
    }
    forall i, j | 0 <= i < j < |items| ensures items[i] != items[j] { assert xs[i + 1] != xs[j + 1]; }
    forall i | 0 <= i < |items| ensures items[i] != list { assert xs[i + 1] != xs[0]; }
  }

  lemma LinksRing(list: Hook, items: seq<Hook>)
    requires Links(list, items)
    ensures Ring([list] + items)
  {
    var xs := [list] + items;
    var n := |xs|;
    DistinctConcat<Hook>([list], items);
    forall i | 0 <= i < n ensures xs[i].next == xs[Succ(i, n)] && xs[Succ(i, n)].prev == xs[i] {
      if 0 < i < n - 1 { assert items[i - 1].next == items[i]; }
    }
  }

  /** iot_list_init */
  method Init(list: Hook)
    modifies list
    ensures List(list, [])
  {
    list.prev, list.next := list, list;
  }

  /** iot_list_empty */
  method Empty(list: Hook, ghost items: seq<Hook>) returns (empty: bool)
    requires List(list, items)
    ensures empty <==> items == []
  {
    ListLinks(list, items);
    empty := list.next == list.prev && list.next == list;
  }

  /** iot_list_append */
  method Append(list: Hook, item: Hook, ghost items: seq<Hook>)
    requires List(list, items) && item !in [list] + items
    modifies list, items, item
    ensures List(list, items + [item])
  {
    hide List, Ring;
    ListLinks(list, items);
    var empty := Empty(list, items);
    DistinctConcat<Hook>(items, [item]);
    if empty {
      list.next, list.prev := item, item;
      item.next, item.prev := list, list;
    } else {
      var prev := list.prev;
      prev.next := item;
      item.prev := prev;
      item.next := list;
      list.prev := item;
    }
    ListLinks(list, items + [item]);
  }

  /** iot_list_prepend */
  method Prepend(list: Hook, item: Hook, ghost items: seq<Hook>)
    requires List(list, items) && item !in [list] + items
    modifies list, items, item
    ensures List(list, [item] + items)
  {
    hide List, Ring;
    ListLinks(list, items);
    var empty := Empty(list, items);
    DistinctConcat<Hook>([item], items);
    if empty {
      list.next, list.prev := item, item;
      item.next, item.prev := list, list;
    } else {
      var next := list.next;
      list.next := item;
      item.prev := list;
      item.next := next;
      next.prev := item;
    }
    ListLinks(list, [item] + items);
  }

  /** iot_list_insert_before: appending to the ring as seen from `next`. */
  method InsertBefore(next: Hook, item: Hook, ghost list: Hook, ghost a: seq<Hook>, ghost b: seq<Hook>)
    requires List(list, a + [next] + b) && item !in [list] + (a + [next] + b)
    modifies list, a, next, b, item
    ensures List(list, a + [item] + [next] + b)
  {
    hide Ring;
    assert [list] + (a + [next] + b) == ([list] + a) + ([next] + b);
    Rotate([list] + a, [next] + b);
    ghost var others := b + ([list] + a);
    assert [next] + b + ([list] + a) == [next] + others;
    Append(next, item, others);
    assert [next] + (others + [item]) == ([next] + b) + ([list] + a + [item]);
    Rotate([next] + b, [list] + a + [item]);
    assert ([list] + a + [item]) + ([next] + b) == [list] + (a + [item] + [next] + b);
  }

  /** iot_list_delete, seen from the item: the rest close up, the item is left
      linked to itself. */
  method Unlink(item: Hook, ghost rest: seq<Hook>)
    requires List(item, rest)
    modifies item, rest
    ensures List(item, []) && (rest != [] ==> List(rest[0], rest[1..]))
  {
    hide List, Ring;
    ListLinks(item, rest);
    var empty := Empty(item, rest);
    if !empty {
      var prev, next := item.prev, item.next;
      prev.next := next;
      next.prev := prev;
      item.prev, item.next := item, item;
      ghost var t := rest[1..];
      assert forall i :: 0 <= i < |t| ==> t[i] == rest[i + 1];
      assert rest[0] !in t;
      assert forall i :: 0 <= i < |t| - 1 ==> t[i].next == t[i + 1] && t[i + 1].prev == t[i];
      ListLinks(rest[0], t);
    }
    ListLinks(item, []);
  }

  /** iot_list_delete of an item of a list. */
  method Delete(item: Hook, ghost list: Hook, ghost a: seq<Hook>, ghost b: seq<Hook>)
    requires List(list, a + [item] + b)
    modifies list, a, item, b
    ensures List(list, a + b) && List(item, [])
  {
    hide Ring;
    assert [list] + (a + [item] + b) == ([list] + a) + ([item] + b);
    Rotate([list] + a, [item] + b);
    ghost var rest := b + ([list] + a);
    assert [item] + b + ([list] + a) == [item] + rest;
    Unlink(item, rest);
    assert [rest[0]] + rest[1..] == b + ([list] + a);
    Rotate(b, [list] + a);
    assert ([list] + a) + b == [list] + (a + b);
  }

  /** iot_list_move: right for a list with items only. An empty list leaves the
      new hook pointing at the old one. */
  method Move(newHook: Hook, oldHook: Hook, ghost items: seq<Hook>)
    requires List(oldHook, items) && newHook !in [oldHook] + items
    modifies newHook, oldHook, items
    ensures List(oldHook, [])
    ensures List(newHook, items) <==> items != []
    ensures items == [] ==> newHook.next == oldHook
  {
    hide List, Ring;
    ListLinks(oldHook, items);
    newHook.prev, newHook.next := oldHook.prev, oldHook.next;
    newHook.next.prev := newHook;
    newHook.prev.next := newHook;
    Init(oldHook);
    ListLinks(newHook, items);
  }

  /** iot_list_join */
  method Join(head: Hook, tail: Hook, ghost xs: seq<Hook>, ghost ys: seq<Hook>)
    requires List(head, xs) && List(tail, ys) && head != tail
    requires forall x :: x in [head] + xs ==> x !in [tail] + ys
    modifies head, xs, tail, ys
    ensures List(head, xs + ys) && List(tail, [])
  {
    hide List, Ring;
    ListLinks(head, xs);
    ListLinks(tail, ys);
    assert xs + [] == xs && [] + ys == ys && head in [head] + xs;
    forall x | x in xs ensures x !in ys && x != tail { assert x in [head] + xs; }
    assert head !in [tail] + ys;
    var empty := Empty(tail, ys);
    if empty { return; }
    empty := Empty(head, xs);
    if empty {
      Move(head, tail, ys);
      return;
    }
    JoinLinks(head, tail, xs, ys);
  }

  /** The four links of a join of two lists with items. */
  method JoinLinks(head: Hook, tail: Hook, ghost xs: seq<Hook>, ghost ys: seq<Hook>)
    requires Links(head, xs) && Links(tail, ys) && head != tail && xs != [] && ys != [] && tail !in xs && head !in ys
    requires forall x :: x in xs ==> x !in ys
    modifies head, xs, tail, ys
    ensures List(head, xs + ys) && List(tail, [])
  {
    hide List, Ring;
    DistinctConcat<Hook>(xs, ys);
    head.prev.next := tail.next;
    tail.next.prev := head.prev;
    tail.prev.next := head;
    head.prev := tail.prev;
    Init(tail);
    ListLinks(head, xs + ys);
  }

  /** The items that a walk leaves on the list. */
  ghost function Kept(items: seq<Hook>, drop: Hook -> bool): seq<Hook> {
    if items == [] then []
    else
      var init, x := items[..|items| - 1], items[|items| - 1];
      Kept(init, drop) + if drop(x) then [] else [x]
  }

  lemma KeptNone(drop: Hook -> bool)
    ensures Kept([], drop) == []
  {
  }

  lemma KeptSnoc(items: seq<Hook>, i: nat, drop: Hook -> bool)
    requires i < |items|
    ensures items[..i + 1] == items[..i] + [items[i]]
    ensures Kept(items[..i + 1], drop) == Kept(items[..i], drop) + if drop(items[i]) then [] else [items[i]]
    ensures Kept(items[..i], drop) + items[i..] == Kept(items[..i], drop) + [items[i]] + items[i + 1..]
  {
    assert items[..i + 1][..i] == items[..i];
    assert items[i..] == [items[i]] + items[i + 1..];
  }

  lemma KeptMembers(items: seq<Hook>, drop: Hook -> bool)
    ensures forall j :: 0 <= j < |Kept(items, drop)| ==> Kept(items, drop)[j] in items && !drop(Kept(items, drop)[j])
  {
    if items != [] {
      KeptMembers(items[..|items| - 1], drop);
      assert items == items[..|items| - 1] + [items[|items| - 1]];
    }
  }

  /** Where a walk stands, and what comes next. */
  lemma WalkAt(list: Hook, kept: seq<Hook>, rest: seq<Hook>)
    requires List(list, kept + rest)
    ensures rest == [] ==> list.next == if kept == [] then list else kept[0]
    ensures rest != [] ==> rest[0].next == (if |rest| > 1 then rest[1] else list) && rest[0] != list
    ensures kept == [] ==> list.next == if rest == [] then list else rest[0]
  {
    hide List, Ring;
    var xs := kept + rest;
    ListLinks(list, xs);
    if rest != [] {
      assert xs[|kept|] == rest[0];
      if |rest| > 1 { assert xs[|kept| + 1] == rest[1]; }
    }
  }

  /** All that a step of the walk needs to know. */
  lemma WalkStep(list: Hook, items: seq<Hook>, i: nat, drop: Hook -> bool)
    requires i < |items| && List(list, Kept(items[..i], drop) + items[i..])
    ensures var kept := Kept(items[..i], drop);
      && List(list, kept + [items[i]] + items[i + 1..])
      && (forall j :: 0 <= j < |kept| ==> kept[j] in items)
      && Kept(items[..i + 1], drop) + items[i + 1..]
         == kept + (if drop(items[i]) then [] else [items[i]]) + items[i + 1..]
    ensures items[i].next == (if i + 1 < |items| then items[i + 1] else list) && items[i] != list
    ensures items[..i + 1] == items[..i] + [items[i]]
  {
    hide List, Kept;
    var kept := Kept(items[..i], drop);
    KeptSnoc(items, i, drop);
    KeptMembers(items[..i], drop);
    WalkAt(list, kept, items[i..]);
    forall j | 0 <= j < |kept| ensures kept[j] in items {
      assert kept[j] in items[..i];
    }
  }

  /** The body: the current item goes or stays. */
  method Pass(p: Hook, drop: bool, ghost list: Hook, ghost kept: seq<Hook>, ghost rest: seq<Hook>)
    requires List(list, kept + [p] + rest)
    modifies list, kept, p, rest
    ensures List(list, kept + (if drop then [] else [p]) + rest)
    ensures drop ==> List(p, [])
  {
    hide List;
    if drop {
      Delete(p, list, kept, rest);
      assert kept + [] + rest == kept + rest;
    }
  }

  /** iot_list_foreach with a body that unlinks the current item or not: every
      item is visited once, in order. (Unlinking the saved next item would leave
      it linked to itself, and the walk standing still on it.) */
  method ForEach(list: Hook, ghost items: seq<Hook>, drop: Hook -> bool) returns (visited: seq<Hook>)
    requires List(list, items)
    modifies list, items
    ensures visited == items && List(list, Kept(items, drop))
  {
    hide List, Ring, Links, Kept;
    visited := [];
    ghost var i := 0;
    KeptNone(drop);
    assert items[0..] == items && items[..0] == [] && [] + items == items;
    WalkAt(list, [], items);
    var p := list.next;
    while p != list
      invariant 0 <= i <= |items| && visited == items[..i] && List(list, Kept(items[..i], drop) + items[i..])
      invariant p == if i < |items| then items[i] else list
      decreases |items| - i
    {
      WalkStep(list, items, i, drop);
      var n := p.next;
      visited := visited + [p];
      Pass(p, drop(p), list, Kept(items[..i], drop), items[i + 1..]);
      i := i + 1;
      p := n;
    }
    if i < |items| { WalkStep(list, items, i, drop); }
    assert items[i..] == [] && items[..i] == items;
    assert Kept(items, drop) + [] == Kept(items, drop);
  }
}
