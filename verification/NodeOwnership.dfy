/** A built node reaches every allocation its build made, each exactly once, and no other. */
module NodeOwnership {
  import opened Common
  import opened NodeModel
  import opened NodeTheorems
  import opened NodeAccounting

  /** 1 if the allocation was made between h and h', 0 otherwise. */
  function Fresh(h: Heap, h': Heap, cell: Ptr): nat {
    Bit(cell.At? && Size(h, cell.arena) <= cell.index < Size(h', cell.arena))
  }

  lemma FreshAdds(a: Heap, b: Heap, c: Heap, cell: Ptr)
    requires Extends(a, b) && Extends(b, c)
    ensures Fresh(a, c, cell) == Fresh(a, b, cell) + Fresh(b, c, cell)
  {
  }

  lemma {:induction false} RefSumPrefix(h: Heap, vs: seq<Raw>, v: Raw, n: nat, bound: nat, cell: Ptr)
    requires Storage(h) && n <= |vs| && OkBelow(h, vs, bound) && OkBelow(h, vs + [v], bound)
    ensures RefSum(h, vs + [v], n, bound, cell) == RefSum(h, vs, n, bound, cell)
  {
    if n > 0 { RefSumPrefix(h, vs, v, n - 1, bound, cell); }
  }

  lemma PtrSumAppend(keys: seq<Ptr>, key: Ptr, cell: Ptr)
    ensures PtrSum(keys + [key], cell) == PtrSum(keys, cell) + Bit(key == cell)
  {
    assert (keys + [key])[..|keys|] == keys;
  }

  /** raw is readable in h, so it refers to one of the lists of h. */
  lemma LevelBounded(h: Heap, raw: Raw)
    requires OkRaw(h, raw)
    ensures Level(raw) <= |h.lists|
  {
  }

  /** The nodes `values`, built in order from h to h', reach exactly what was allocated in
      between, together with the pointers `keys`. */
  ghost predicate Owns(h: Heap, h': Heap, keys: seq<Ptr>, values: seq<Raw>, cell: Ptr)
    requires Storage(h')
  {
    OkBelow(h', values, |h'.lists|) &&
    RefSum(h', values, |values|, |h'.lists|, cell) + PtrSum(keys, cell) == Fresh(h, h', cell)
  }

  lemma OwnsOneMore(h: Heap, h1: Heap, h2: Heap, h3: Heap, keys: seq<Ptr>, values: seq<Raw>, more: seq<Ptr>, v: Raw,
                    cell: Ptr)
    requires Storage(h1) && Storage(h3) && Extends(h, h1) && Extends(h1, h2) && Extends(h2, h3)
    requires Owns(h, h1, keys, values, cell) && OkRaw(h3, v)
    requires Refs(h3, v, cell) == Fresh(h2, h3, cell)
    requires PtrSum(keys + more, cell) == PtrSum(keys, cell) + Fresh(h1, h2, cell)
    ensures Owns(h, h3, keys + more, values + [v], cell)
  {
    FreshAdds(h1, h2, h3, cell);
    FreshAdds(h, h1, h3, cell);
    ExtendsTransitive(h1, h2, h3);
    RefSumFrame(h1, h3, values, |values|, |h1.lists|, |h3.lists|, cell);
    LevelBounded(h3, v);
    RefSumPrefix(h3, values, v, |values|, |h3.lists|, cell);
  }

  /** Exactly the new allocations, each once: nothing is shared, orphaned or foreign. */
  lemma {:induction false} BuildOwns(h: Heap, node: Node, cell: Ptr)
    requires Storage(h) && Build(h, node).1.Ok?
    ensures var (h1, r) := Build(h, node);
            Storage(h1) && OkRaw(h1, r.value) && Refs(h1, r.value, cell) == Fresh(h, h1, cell)
    decreases node, 0
  {
    BuildReadsBack(h, node);
    match node {
      case Array(items) =>
        ItemsOwn(h, items, |items|, cell);
        var (h1, r) := BuildItems(h, items, |items|);
        ArrayOwns(h, h1, r.value, cell);
      case Map(entries) =>
        EntriesOwn(h, entries, |entries|, cell);
        var (h1, r) := BuildEntries(h, entries, |entries|);
        MapOwns(h, h1, r.value, cell);
      case Str(s) => StringOwns(h, s, cell);
      case Bytes(data) =>
      case _ =>
    }
  }

  /** A string is one allocation, and the pointer returned is the pointer to it. */
  lemma StringOwns(h: Heap, s: seq<Byte>, cell: Ptr)
    requires Storage(h) && 0 !in s
    ensures var (h1, p) := PushString(h, s);
            Storage(h1) && Extends(h, h1) && p.Ok? && OkStr(h1, p.value) && Fresh(h, h1, cell) == Bit(p.value == cell)
  {
    StringStored(h, s);
  }

  lemma ArrayOwns(h: Heap, h1: Heap, values: seq<Raw>, cell: Ptr)
    requires Storage(h1) && Extends(h, h1) && Owns(h, h1, [], values, cell)
    requires Storage(PushArray(h1, values).0) && OkRaw(PushArray(h1, values).0, PushArray(h1, values).1)
    ensures var (h2, raw) := PushArray(h1, values); Refs(h2, raw, cell) == Fresh(h, h2, cell)
  {
    var (h2, raw) := PushArray(h1, values);
    FreshAdds(h, h1, h2, cell);
    RefSumFrame(h1, h2, values, |values|, |h1.lists|, |h1.lists|, cell);
    assert StoredList(h2, h2.lists[|h1.lists|]);
  }

  lemma MapOwns(h: Heap, h1: Heap, p: Pairs, cell: Ptr)
    requires Storage(h1) && Extends(h, h1) && Owns(h, h1, p.keys, p.values, cell)
    requires Storage(PushMap(h1, p).0) && OkRaw(PushMap(h1, p).0, PushMap(h1, p).1)
    ensures var (h2, raw) := PushMap(h1, p); Refs(h2, raw, cell) == Fresh(h, h2, cell)
  {
    var (h2, raw) := PushMap(h1, p);
    FreshAdds(h, h1, h2, cell);
    RefSumFrame(h1, h2, p.values, |p.values|, |h1.lists|, |h1.lists|, cell);
    assert StoredList(h2, h2.lists[|h1.lists|]);
  }

  lemma {:induction false} ItemsOwn(h: Heap, items: seq<Node>, n: nat, cell: Ptr)
    requires Storage(h) && n <= |items| && BuildItems(h, items, n).1.Ok?
    ensures var (h1, r) := BuildItems(h, items, n);
            Storage(h1) && Extends(h, h1) && Owns(h, h1, [], r.value, cell)
    decreases items, n
  {
    if n > 0 {
      ItemsOwn(h, items, n - 1, cell);
      var (h1, before) := BuildItems(h, items, n - 1);
      BuildOwns(h1, items[n - 1], cell);
      BuildExtends(h1, items[n - 1]);
      var (h2, last) := Build(h1, items[n - 1]);
      var none: seq<Ptr> := [];
      assert none + none == none;
      OwnsOneMore(h, h1, h1, h2, none, before.value, none, last.value, cell);
    }
  }

  lemma {:induction false} EntriesOwn(h: Heap, entries: seq<Entry>, n: nat, cell: Ptr)
    requires Storage(h) && n <= |entries| && BuildEntries(h, entries, n).1.Ok?
    ensures var (h1, r) := BuildEntries(h, entries, n);
            Storage(h1) && Extends(h, h1) && Owns(h, h1, r.value.keys, r.value.values, cell)
    decreases entries, n
  {
    if n > 0 {
      EntriesOwn(h, entries, n - 1, cell);
      var (h1, before) := BuildEntries(h, entries, n - 1);
      var e := entries[n - 1];
      StringOwns(h1, e.key, cell);
      var (h2, key) := PushString(h1, e.key);
      BuildOwns(h2, e.value, cell);
      BuildExtends(h2, e.value);
      var (h3, last) := Build(h2, e.value);
      EntryOwns(h, h1, h2, h3, before.value, key.value, last.value, cell);
    }
  }

  lemma EntryOwns(h: Heap, h1: Heap, h2: Heap, h3: Heap, p: Pairs, key: Ptr, v: Raw, cell: Ptr)
    requires Storage(h1) && Storage(h3) && Extends(h, h1) && Extends(h1, h2) && Extends(h2, h3)
    requires Owns(h, h1, p.keys, p.values, cell) && OkRaw(h3, v)
    requires Fresh(h1, h2, cell) == Bit(key == cell) && Refs(h3, v, cell) == Fresh(h2, h3, cell)
    ensures Extends(h, h3) && Owns(h, h3, p.keys + [key], p.values + [v], cell)
  {
    PtrSumAppend(p.keys, key, cell);
    OwnsOneMore(h, h1, h2, h3, p.keys, p.values, [key], v, cell);
    ExtendsTransitive(h, h1, h2);
    ExtendsTransitive(h, h2, h3);
  }
}
