/**
 * `NodeStorage` and `Node::from_raw` in the source's own form: an object whose six
 * vectors grow while a recursive method walks the tree, and loops that fill vectors while
 * walking the raw graph.  Both are proved against the functions of NodeModel.
 */
module NodeStorages {
  import opened Common
  import opened NodeModel
  import opened NodeTheorems
  import opened NodeAccounting
  import opened NodeMeaning

  /** A failed item ends the loop: later items change nothing. */
  lemma {:induction false} ItemsStop(h: Heap, items: seq<Node>, n: nat, m: nat)
    requires n <= m <= |items| && BuildItems(h, items, n).1.Err?
    ensures BuildItems(h, items, m) == BuildItems(h, items, n)
  {
    if n < m { ItemsStop(h, items, n, m - 1); }
  }

  lemma {:induction false} EntriesStop(h: Heap, entries: seq<Entry>, n: nat, m: nat)
    requires n <= m <= |entries| && BuildEntries(h, entries, n).1.Err?
    ensures BuildEntries(h, entries, m) == BuildEntries(h, entries, n)
  {
    if n < m { EntriesStop(h, entries, n, m - 1); }
  }

  class NodeStorage {
    var strings: seq<seq<Byte>>
    var lists: seq<RawList>
    var nodeArrays: seq<seq<Raw>>
    var keyArrays: seq<seq<Ptr>>
    var byteArrays: seq<RawBytes>
    var byteData: seq<seq<Byte>>

    /** The memory this storage owns. */
    function View(): Heap
      reads this
    {
      Heap(strings, lists, nodeArrays, keyArrays, byteArrays, byteData)
    }

    ghost predicate Valid()
      reads this
    {
      Storage(View())
    }

    constructor ()
      ensures View() == EMPTY_HEAP && Valid()
    {
      strings, lists, nodeArrays, keyArrays, byteArrays, byteData := [], [], [], [], [], [];
    }

    method CString(s: seq<Byte>) returns (r: Result<Ptr, Error>)
      modifies this
      ensures (View(), r) == PushString(old(View()), s)
    {
      if 0 in s { return Err(InteriorNul); }
      r := Ok(At(Strings, |strings|));
      strings := strings + [s + [0]];
    }

    /** The recursive walk of `build`, one case per kind of node. */
    method BuildNode(node: Node) returns (r: Result<Raw, Error>)
      modifies this
      ensures (View(), r) == Build(old(View()), node)
      decreases node, 0
    {
      match node
      case Empty => r := Ok(Raw(AsInt(0), FORMAT_NONE));
      case Flag(v) => r := Ok(Raw(AsFlag(if v then 1 else 0), FORMAT_FLAG));
      case Int(v) => r := Ok(Raw(AsInt(v), FORMAT_INT64));
      case Double(v) => r := Ok(Raw(AsDouble(v), FORMAT_DOUBLE));
      case Str(s) =>
        var p := CString(s);
        if p.Err? { return Err(p.error); }
        r := Ok(Raw(AsPtr(p.value), FORMAT_STRING));
      case Array(items) => r := BuildArray(items);
      case Map(entries) => r := BuildMap(entries);
      case Bytes(data) =>
        var dataPtr := At(ByteData, |byteData|);
        byteData := byteData + [data];
        r := Ok(Raw(AsPtr(At(ByteArrays, |byteArrays|)), FORMAT_BYTE_ARRAY));
        byteArrays := byteArrays + [RawBytes(dataPtr, |data|)];
    }

    method BuildArray(items: seq<Node>) returns (r: Result<Raw, Error>)
      modifies this
      ensures (View(), r) == Build(old(View()), Array(items))
      decreases items, 1
    {
      ghost var h := View();
      var values: seq<Raw> := [];
      for i := 0 to |items|
        invariant (View(), Ok(values)) == BuildItems(h, items, i)
      {
        var value := BuildNode(items[i]);
        if value.Err? {
          ItemsStop(h, items, i + 1, |items|);
          return Err(value.error);
        }
        values := values + [value.value];
      }
      var valuesPtr := At(NodeArrays, |nodeArrays|);
      nodeArrays := nodeArrays + [values];
      var list := RawList(Wrap32(|items|), valuesPtr, Null);
      r := Ok(Raw(AsPtr(At(Lists, |lists|)), FORMAT_NODE_ARRAY));
      lists := lists + [list];
    }

    method BuildMap(entries: seq<Entry>) returns (r: Result<Raw, Error>)
      modifies this
      ensures (View(), r) == Build(old(View()), Map(entries))
      decreases entries, 1
    {
      ghost var h := View();
      var values: seq<Raw> := [];
      var keys: seq<Ptr> := [];
      for i := 0 to |entries|
        invariant (View(), Ok(Pairs(keys, values))) == BuildEntries(h, entries, i)
      {
        var key := CString(entries[i].key);
        if key.Err? {
          EntriesStop(h, entries, i + 1, |entries|);
          return Err(key.error);
        }
        keys := keys + [key.value];
        var value := BuildNode(entries[i].value);
        if value.Err? {
          EntriesStop(h, entries, i + 1, |entries|);
          return Err(value.error);
        }
        values := values + [value.value];
      }
      var valuesPtr := At(NodeArrays, |nodeArrays|);
      nodeArrays := nodeArrays + [values];
      var keysPtr := At(KeyArrays, |keyArrays|);
      keyArrays := keyArrays + [keys];
      var list := RawList(Wrap32(|entries|), valuesPtr, keysPtr);
      r := Ok(Raw(AsPtr(At(Lists, |lists|)), FORMAT_NODE_MAP));
      lists := lists + [list];
    }

    /** `build` as its callers use it. */
    method BuildRaw(node: Node) returns (r: Result<Raw, Error>)
      requires Valid()
      modifies this
      ensures Valid() && Extends(old(View()), View())
      ensures r.Err? <==> HasNul(node)
      ensures r.Err? ==> r.error == InteriorNul
      ensures r.Ok? ==> BuiltAs(View(), r.value, node) && ReadsAs(View(), r.value, Cut(node))
      ensures forall earlier, tree :: old(ReadsAs(View(), earlier, tree)) ==> ReadsAs(View(), earlier, tree)
    {
      ghost var h := View();
      r := BuildNode(node);
      BuildReadsBack(h, node);
      BuildFailsIff(h, node);
      if r.Ok? { BuildLaysOut(h, node); }
      forall earlier, tree | ReadsAs(h, earlier, tree) ensures ReadsAs(View(), earlier, tree) {
        EarlierNodesUnchanged(h, node, earlier, tree);
      }
    }
  }

  // ----- from_raw -----

  /** The tree the raw node denotes. */
  method FromRaw(h: Heap, ghost rank: seq<nat>, raw: Raw) returns (node: Node)
    requires Mem(h, rank) && OkRaw(h, raw)
    ensures node == Decode(h, rank, raw) && NodeIs(h, raw, node)
    decreases Depth(rank, raw), 0
  {
    DecodeIsRight(h, rank, raw);
    if raw.format == FORMAT_FLAG {
      node := Flag(raw.u.flag != 0);
    } else if raw.format == FORMAT_INT64 {
      node := Int(raw.u.int64);
    } else if raw.format == FORMAT_DOUBLE {
      node := Double(raw.u.bits);
    } else if raw.format == FORMAT_STRING {
      node := Str(ReadCStr(h.strings[raw.u.ptr.index]));
    } else if raw.format == FORMAT_NODE_ARRAY {
      var items := ItemsFromRaw(h, rank, raw.u.ptr.index);
      node := Array(items);
    } else if raw.format == FORMAT_NODE_MAP {
      var entries := EntriesFromRaw(h, rank, raw.u.ptr.index);
      node := Map(entries);
    } else if raw.format == FORMAT_BYTE_ARRAY {
      var ba := h.byteArrays[raw.u.ptr.index];
      node := Bytes(if ba.size == 0 then [] else h.byteData[ba.data.index][..ba.size]);
    } else {
      node := Empty;
    }
  }

  method ItemsFromRaw(h: Heap, ghost rank: seq<nat>, i: nat) returns (items: seq<Node>)
    requires Mem(h, rank) && i < |h.lists|
    ensures items == DecodeItems(h, rank, i, Count(h.lists[i]))
    decreases rank[i], 1
  {
    var list := h.lists[i];
    items := [];
    for k := 0 to Count(list)
      invariant items == DecodeItems(h, rank, i, k)
    {
      assert OkItem(h, rank, i, k);
      var item := FromRaw(h, rank, h.nodeArrays[list.values.index][k]);
      items := items + [item];
    }
  }

  method EntriesFromRaw(h: Heap, ghost rank: seq<nat>, i: nat) returns (entries: seq<Entry>)
    requires Mem(h, rank) && i < |h.lists| && OkKeys(h, h.lists[i])
    ensures entries == DecodeEntries(h, rank, i, Count(h.lists[i]))
    decreases rank[i], 1
  {
    var list := h.lists[i];
    entries := [];
    for k := 0 to Count(list)
      invariant entries == DecodeEntries(h, rank, i, k)
    {
      assert OkItem(h, rank, i, k);
      var key := ReadCStr(h.strings[h.keyArrays[list.keys.index][k].index]);
      var value := FromRaw(h, rank, h.nodeArrays[list.values.index][k]);
      entries := entries + [Entry(key, value)];
    }
  }
}
