/** The intrusive circular doubly linked list (list.h) under the semaphores and queues.
    A list is a head entry whose forward links run through every element and back to the head. */
module Lists {

  class ListEntry<T> {
    var flink: ListEntry<T>
    var blink: ListEntry<T>
    const item: T  // the structure the entry is embedded in; unused on a head

    /** init_list_head: an empty list is a head linked to itself. */
    constructor Head(unused: T)
      ensures IsRing(this, [])
    {
      flink, blink := this, this;
      item := unused;
    }

    constructor (item: T)
      ensures this.item == item
    {
      flink, blink := this, this;
      this.item := item;
    }
  }

  /** The entry after position `i` when `r` is read as a circle. */
  ghost function After<T>(r: seq<ListEntry<T>>, i: nat): ListEntry<T>
    requires i < |r|
  {
    if i + 1 == |r| then r[0] else r[i + 1]
  }

  ghost predicate Distinct<T>(s: seq<T>) {
    forall i, j :: 0 <= i < j < |s| ==> s[i] != s[j]
  }

  /** `head` is the head of a well-linked list whose elements, first to last, are `s`. */
  ghost predicate IsRing<T>(head: ListEntry<T>, s: seq<ListEntry<T>>)
    reads head, s
  {
    var r := [head] + s;
    && Distinct(r)
    && forall i {:trigger After(r, i)} :: 0 <= i < |r| ==> r[i].flink == After(r, i) && After(r, i).blink == r[i]
  }

  lemma HeadLink<T>(head: ListEntry<T>, s: seq<ListEntry<T>>)
    requires IsRing(head, s)
    ensures head.flink == if s == [] then head else s[0]
    ensures head !in s
  {
    var r := [head] + s;
    assert After(r, 0) == if s == [] then head else s[0];
    assert r[0] == head && forall i :: 0 <= i < |s| ==> s[i] == r[i + 1];
  }

  method IsListEmpty<T>(head: ListEntry<T>, ghost s: seq<ListEntry<T>>) returns (empty: bool)
    requires IsRing(head, s)
    ensures empty <==> s == []
  {
    HeadLink(head, s);
    empty := head.flink == head;
  }

  method InsertTailList<T>(head: ListEntry<T>, entry: ListEntry<T>, ghost s: seq<ListEntry<T>>)
    requires IsRing(head, s) && entry != head && entry !in s
    modifies head, s, entry
    ensures IsRing(head, s + [entry])
  {
    ghost var r, r' := [head] + s, [head] + (s + [entry]);
    assert r' == r + [entry];
    assert After(r, |s|) == head;
    var blink := head.blink;
    entry.flink := head;
    entry.blink := blink;
    blink.flink := entry;
    head.blink := entry;
    forall i | 0 <= i < |r'|
      ensures r'[i].flink == After(r', i) && After(r', i).blink == r'[i]
    {
      if i < |s| {
        assert old(r[i].flink) == After(r, i) == r'[i + 1];
      }
    }
  }

  method InsertHeadList<T>(head: ListEntry<T>, entry: ListEntry<T>, ghost s: seq<ListEntry<T>>)
    requires IsRing(head, s) && entry != head && entry !in s
    modifies head, s, entry
    ensures IsRing(head, [entry] + s)
  {
    ghost var r, r' := [head] + s, [head] + ([entry] + s);
    assert forall i :: 0 <= i < |r'| ==> r'[i] == if i == 0 then head else if i == 1 then entry else r[i - 1];
    assert After(r, 0) == head.flink;
    var flink := head.flink;
    entry.flink := flink;
    entry.blink := head;
    flink.blink := entry;
    head.flink := entry;
    forall i | 0 <= i < |r'|
      ensures r'[i].flink == After(r', i) && After(r', i).blink == r'[i]
    {
      if i > 1 {
        assert old(r[i - 1].flink) == After(r, i - 1);
      }
    }
  }

  /** The removed entry keeps its own links: a cursor standing on it can still move on. */
  method RemoveHeadList<T>(head: ListEntry<T>, ghost s: seq<ListEntry<T>>) returns (entry: ListEntry<T>)
    requires IsRing(head, s) && s != []
    modifies head, s
    ensures entry == s[0] && entry !in s[1..] && IsRing(head, s[1..])
    ensures entry.flink == if |s| == 1 then head else s[1]
  {
    ghost var r, r' := [head] + s, [head] + s[1..];
    assert forall i :: 0 <= i < |r'| ==> r'[i] == r[if i == 0 then 0 else i + 1];
    assert After(r, 0) == s[0];
    assert After(r, 1) == if |s| == 1 then head else s[1];
    assert forall i :: 0 <= i < |s| ==> s[i] == r[i + 1];
    entry := head.flink;
    var flink := entry.flink;
    head.flink := flink;
    flink.blink := head;
    forall i | 0 <= i < |r'|
      ensures r'[i].flink == After(r', i) && After(r', i).blink == r'[i]
    {
      if i > 0 {
        assert old(r[i + 1].flink) == After(r, i + 1);
      }
    }
  }
}
