/** Append-only growth, framing, and the round trip of node marshalling. */
module NodeTheorems {
  import opened Common
  import opened NodeModel

  // ----- append-only growth -----

  /** Every arena of h is a prefix of the same arena of h'. */
  ghost predicate Extends(h: Heap, h': Heap) {
    && h.strings <= h'.strings && h.lists <= h'.lists && h.nodeArrays <= h'.nodeArrays
    && h.keyArrays <= h'.keyArrays && h.byteArrays <= h'.byteArrays && h.byteData <= h'.byteData
  }

  lemma ExtendsTransitive(a: Heap, b: Heap, c: Heap)
    requires Extends(a, b) && Extends(b, c)
    ensures Extends(a, c)
  {
  }

  /** Any build, successful or failing part-way, only appends to the storage. */
  lemma {:induction false} BuildExtends(h: Heap, node: Node)
    ensures Extends(h, Build(h, node).0)
    decreases node, 0
  {
    match node
    case Array(items) => BuildItemsExtends(h, items, |items|);
    case Map(entries) => BuildEntriesExtends(h, entries, |entries|);
    case _ =>
  }

  lemma {:induction false} BuildItemsExtends(h: Heap, items: seq<Node>, n: nat)
    requires n <= |items|
    ensures Extends(h, BuildItems(h, items, n).0)
    decreases items, n
  {
    if n > 0 {
      BuildItemsExtends(h, items, n - 1);
      BuildExtends(BuildItems(h, items, n - 1).0, items[n - 1]);
    }
  }

  lemma {:induction false} BuildEntriesExtends(h: Heap, entries: seq<Entry>, n: nat)
    requires n <= |entries|
    ensures Extends(h, BuildEntries(h, entries, n).0)
    decreases entries, n
  {
    if n > 0 {
      BuildEntriesExtends(h, entries, n - 1);
      var h1 := BuildEntries(h, entries, n - 1).0;
      BuildExtends(PushString(h1, entries[n - 1].key).0, entries[n - 1].value);
    }
  }

  // ----- framing -----

  lemma OkRawFrame(h: Heap, h': Heap, raw: Raw)
    requires Extends(h, h') && OkRaw(h, raw)
    ensures OkRaw(h', raw)
  {
  }

  /** Growing the memory, or ranking its lists differently, does not change what a node decodes to. */
  lemma {:induction false} DecodeFrame(h: Heap, rank: seq<nat>, h': Heap, rank': seq<nat>, raw: Raw)
    requires Mem(h, rank) && Mem(h', rank') && Extends(h, h') && OkRaw(h, raw)
    ensures OkRaw(h', raw) && Decode(h', rank', raw) == Decode(h, rank, raw)
    decreases Depth(rank, raw), 0, 0
  {
    OkRawFrame(h, h', raw);
    if raw.format == FORMAT_NODE_ARRAY {
      var i := raw.u.ptr.index;
      DecodeItemsFrame(h, rank, h', rank', i, Count(h.lists[i]));
    } else if raw.format == FORMAT_NODE_MAP {
      var i := raw.u.ptr.index;
      DecodeEntriesFrame(h, rank, h', rank', i, Count(h.lists[i]));
    }
  }

  lemma {:induction false} DecodeItemsFrame(h: Heap, rank: seq<nat>, h': Heap, rank': seq<nat>, i: nat, n: nat)
    requires Mem(h, rank) && Mem(h', rank') && Extends(h, h') && i < |h.lists| && n <= Count(h.lists[i])
    ensures DecodeItems(h', rank', i, n) == DecodeItems(h, rank, i, n)
    decreases rank[i], 1, n
  {
    if n > 0 {
      DecodeItemsFrame(h, rank, h', rank', i, n - 1);
      assert OkItem(h, rank, i, n - 1);
      DecodeFrame(h, rank, h', rank', Item(h, rank, i, n - 1));
    }
  }

  lemma {:induction false} DecodeEntriesFrame(h: Heap, rank: seq<nat>, h': Heap, rank': seq<nat>, i: nat, n: nat)
    requires Mem(h, rank) && Mem(h', rank') && Extends(h, h') && i < |h.lists| && n <= Count(h.lists[i])
    requires OkKeys(h, h.lists[i])
    ensures OkKeys(h', h'.lists[i])
    ensures DecodeEntries(h', rank', i, n) == DecodeEntries(h, rank, i, n)
    decreases rank[i], 1, n
  {
    if n > 0 {
      DecodeEntriesFrame(h, rank, h', rank', i, n - 1);
      assert OkItem(h, rank, i, n - 1);
      DecodeFrame(h, rank, h', rank', Item(h, rank, i, n - 1));
    }
  }

  // ----- the storage invariant -----

  /** Lists ranked by the order in which they were pushed. */
  function Pushed(n: nat): (rank: seq<nat>)
    ensures |rank| == n && forall i :: 0 <= i < n ==> rank[i] == i
  {
    seq(n, i => i)
  }

  /** Number of lists that were pushed up to and including the one a node refers to. */
  function Level(raw: Raw): nat {
    if IsListFormat(raw.format) && raw.u.AsPtr? && raw.u.ptr.At? then raw.u.ptr.index + 1 else 0
  }

  /** Item k of list i is readable and refers only to a list pushed before list i. */
  predicate StoredItem(h: Heap, i: nat, k: nat)
    requires i < |h.lists|
  {
    var l := h.lists[i];
    PtrIn(l.values, NodeArrays, |h.nodeArrays|) &&
    (k < |h.nodeArrays[l.values.index]| ==>
       OkRaw(h, h.nodeArrays[l.values.index][k]) && Level(h.nodeArrays[l.values.index][k]) <= i)
  }

  /** A list the storage owns: exactly as many values as its `num` counts, before wrapping. */
  predicate StoredList(h: Heap, l: RawList) {
    && PtrIn(l.values, NodeArrays, |h.nodeArrays|)
    && l.num == Wrap32(|h.nodeArrays[l.values.index]|)
    && (l.keys.At? ==>
          && PtrIn(l.keys, KeyArrays, |h.keyArrays|)
          && |h.keyArrays[l.keys.index]| == |h.nodeArrays[l.values.index]|
          && forall k :: 0 <= k < |h.keyArrays[l.keys.index]| ==> OkStr(h, h.keyArrays[l.keys.index][k]))
  }

  /** What every sequence of builds, starting from an empty storage, establishes. */
  ghost predicate Storage(h: Heap) {
    && (forall i :: 0 <= i < |h.lists| ==> StoredList(h, h.lists[i]))
    && (forall i, k {:trigger StoredItem(h, i, k)} :: 0 <= i < |h.lists| && 0 <= k ==> StoredItem(h, i, k))
  }

  lemma WrapBelow(n: nat)
    ensures n < 0x8000_0000 ==> Wrap32(n) == n
    ensures n >= 0x8000_0000 ==> Wrap32(n) < n
    ensures Wrap32(n) <= n
  {
  }

  /** The lists of a storage are ranked by push order, so its graph is acyclic. */
  lemma StorageIsMem(h: Heap)
    requires Storage(h)
    ensures Mem(h, Pushed(|h.lists|))
  {
    var rank := Pushed(|h.lists|);
    forall i, k | 0 <= i < |h.lists| && 0 <= k ensures OkItem(h, rank, i, k) {
      assert StoredItem(h, i, k) && StoredList(h, h.lists[i]);
      if k < Count(h.lists[i]) { WrapBelow(|h.nodeArrays[h.lists[i].values.index]|); }
    }
  }

  // ----- what a build returns -----

  /** What survives the 32-bit list lengths: the first max(0, len as c_int) items of each list. */
  function Cut(node: Node): Node
    decreases node, 0
  {
    match node
    case Array(items) => Array(CutItems(items, Kept(|items|)))
    case Map(entries) => Map(CutEntries(entries, Kept(|entries|)))
    case _ => node
  }

  function Kept(n: nat): (k: nat)
    ensures k <= n
  {
    WrapBelow(n);
    if Wrap32(n) > 0 then Wrap32(n) else 0
  }

  function CutItems(items: seq<Node>, n: nat): (r: seq<Node>)
    requires n <= |items|
    ensures |r| == n
    decreases items, n
  {
    if n == 0 then [] else CutItems(items, n - 1) + [Cut(items[n - 1])]
  }

  function CutEntry(e: Entry): Entry
    decreases e, 1
  {
    Entry(e.key, Cut(e.value))
  }

  function CutEntries(entries: seq<Entry>, n: nat): (r: seq<Entry>)
    requires n <= |entries|
    ensures |r| == n
    decreases entries, n
  {
    if n == 0 then []
    else CutEntries(entries, n - 1) + [CutEntry(entries[n - 1])]
  }

  /** raw is owned by the storage h and reads back as `node`. */
  ghost predicate ReadsAs(h: Heap, raw: Raw, node: Node)
    requires Storage(h)
  {
    StorageIsMem(h);
    OkRaw(h, raw) && Decode(h, Pushed(|h.lists|), raw) == node
  }

  lemma ReadsAsFrame(h: Heap, h': Heap, raw: Raw, node: Node)
    requires Storage(h) && Storage(h') && Extends(h, h') && ReadsAs(h, raw, node)
    ensures ReadsAs(h', raw, node)
  {
    StorageIsMem(h);
    StorageIsMem(h');
    DecodeFrame(h, Pushed(|h.lists|), h', Pushed(|h'.lists|), raw);
  }

  /** The same for a map entry. */
  ghost predicate EntryReadsAs(h: Heap, key: Ptr, value: Raw, e: Entry)
    requires Storage(h)
  {
    OkStr(h, key) && ReadCStr(h.strings[key.index]) == e.key && ReadsAs(h, value, e.value)
  }

  lemma EntryFrame(h: Heap, h': Heap, key: Ptr, value: Raw, e: Entry)
    requires Storage(h) && Storage(h') && Extends(h, h') && EntryReadsAs(h, key, value, e)
    ensures EntryReadsAs(h', key, value, e)
  {
    ReadsAsFrame(h, h', value, e.value);
  }

  // ----- one push at a time -----

  lemma StringStored(h: Heap, s: seq<Byte>)
    requires Storage(h) && 0 !in s
    ensures var (h1, p) := PushString(h, s);
            Extends(h, h1) && Storage(h1) && p.Ok? && OkStr(h1, p.value) && ReadCStr(h1.strings[p.value.index]) == s
  {
    var (h1, p) := PushString(h, s);
    ReadTerminated(s);
    assert (s + [0])[|s|] == 0;
    StorageFrame(h, h1);
  }

  /** Appending to arenas other than the list arena keeps the storage invariant. */
  lemma StorageFrame(h: Heap, h': Heap)
    requires Storage(h) && Extends(h, h') && h'.lists == h.lists
    ensures Storage(h')
  {
    forall i, k | 0 <= i < |h'.lists| && 0 <= k ensures StoredItem(h', i, k) {
      assert StoredItem(h, i, k);
    }
  }

  lemma BytesStored(h: Heap, data: seq<Byte>)
    requires Storage(h)
    ensures var (h1, raw) := PushBytes(h, data);
            Extends(h, h1) && Storage(h1) && ReadsAs(h1, raw, Bytes(data))
  {
    var (h1, raw) := PushBytes(h, data);
    StorageFrame(h, h1);
    StorageIsMem(h1);
    assert data[..|data|] == data;
  }

  /** The last list of h': its values are the new slice, its items older lists' nodes. */
  lemma ListStored(h: Heap, h': Heap, values: seq<Raw>, list: RawList)
    requires Storage(h) && Extends(h, h')
    requires h'.lists == h.lists + [list] && h'.nodeArrays == h.nodeArrays + [values]
    requires list.values == At(NodeArrays, |h.nodeArrays|) && StoredList(h', list)
    requires forall k :: 0 <= k < |values| ==> OkRaw(h, values[k])
    ensures Storage(h')
  {
    forall i, k | 0 <= i < |h'.lists| && 0 <= k ensures StoredItem(h', i, k) {
      if i < |h.lists| { assert StoredItem(h, i, k); }
    }
  }

  /** The items of the newest list read back as the nodes its values stand for. */
  lemma {:induction false} NewItemsRead(h: Heap, h': Heap, values: seq<Raw>, nodes: seq<Node>, n: nat)
    requires Storage(h) && Storage(h') && Extends(h, h') && |h'.lists| == |h.lists| + 1
    requires h'.lists[|h.lists|].values == At(NodeArrays, |h.nodeArrays|)
    requires |h'.nodeArrays| > |h.nodeArrays| && h'.nodeArrays[|h.nodeArrays|] == values
    requires |values| == |nodes| && forall k :: 0 <= k < |values| ==> ReadsAs(h, values[k], nodes[k])
    requires n <= Count(h'.lists[|h.lists|]) <= |values|
    ensures Mem(h', Pushed(|h'.lists|)) && DecodeItems(h', Pushed(|h'.lists|), |h.lists|, n) == nodes[..n]
  {
    StorageIsMem(h');
    if n > 0 {
      NewItemsRead(h, h', values, nodes, n - 1);
      ReadsAsFrame(h, h', values[n - 1], nodes[n - 1]);
      assert nodes[..n] == nodes[..n - 1] + [nodes[n - 1]];
    }
  }

  lemma ArrayStored(h: Heap, values: seq<Raw>, nodes: seq<Node>)
    requires Storage(h)
    requires |values| == |nodes| && forall k :: 0 <= k < |values| ==> ReadsAs(h, values[k], nodes[k])
    ensures var (h1, raw) := PushArray(h, values);
            Extends(h, h1) && Storage(h1) && ReadsAs(h1, raw, Array(nodes[..Kept(|nodes|)]))
  {
    var (h1, raw) := PushArray(h, values);
    ListStored(h, h1, values, h1.lists[|h.lists|]);
    WrapBelow(|values|);
    NewItemsRead(h, h1, values, nodes, Kept(|nodes|));
  }

  lemma {:induction false} NewEntriesRead(h: Heap, h': Heap, p: Pairs, entries: seq<Entry>, n: nat)
    requires Storage(h) && Storage(h') && Extends(h, h') && |h'.lists| == |h.lists| + 1
    requires h'.lists[|h.lists|].values == At(NodeArrays, |h.nodeArrays|)
    requires h'.lists[|h.lists|].keys == At(KeyArrays, |h.keyArrays|)
    requires |h'.nodeArrays| > |h.nodeArrays| && h'.nodeArrays[|h.nodeArrays|] == p.values
    requires |h'.keyArrays| > |h.keyArrays| && h'.keyArrays[|h.keyArrays|] == p.keys
    requires |p.values| == |p.keys| == |entries|
    requires forall k :: 0 <= k < |entries| ==> EntryReadsAs(h, p.keys[k], p.values[k], entries[k])
    requires n <= Count(h'.lists[|h.lists|]) <= |entries|
    ensures Mem(h', Pushed(|h'.lists|)) && OkKeys(h', h'.lists[|h.lists|])
    ensures DecodeEntries(h', Pushed(|h'.lists|), |h.lists|, n) == entries[..n]
  {
    StorageIsMem(h');
    if n > 0 {
      NewEntriesRead(h, h', p, entries, n - 1);
      EntryFrame(h, h', p.keys[n - 1], p.values[n - 1], entries[n - 1]);
      assert entries[..n] == entries[..n - 1] + [entries[n - 1]];
    }
  }

  lemma MapStored(h: Heap, p: Pairs, entries: seq<Entry>)
    requires Storage(h) && |p.values| == |p.keys| == |entries|
    requires forall k :: 0 <= k < |entries| ==> EntryReadsAs(h, p.keys[k], p.values[k], entries[k])
    ensures var (h1, raw) := PushMap(h, p);
            Extends(h, h1) && Storage(h1) && ReadsAs(h1, raw, Map(entries[..Kept(|entries|)]))
  {
    var (h1, raw) := PushMap(h, p);
    ListStored(h, h1, p.values, h1.lists[|h.lists|]);
    WrapBelow(|p.values|);
    NewEntriesRead(h, h1, p, entries, Kept(|entries|));
  }

  // ----- the round trip -----

  lemma {:induction false} CutItemsAt(items: seq<Node>, n: nat)
    requires n <= |items|
    ensures forall k :: 0 <= k < n ==> CutItems(items, n)[k] == Cut(items[k])
  {
    if n > 0 { CutItemsAt(items, n - 1); }
  }

  lemma {:induction false} CutEntriesAt(entries: seq<Entry>, n: nat)
    requires n <= |entries|
    ensures forall k :: 0 <= k < n ==> CutEntries(entries, n)[k] == CutEntry(entries[k])
  {
    if n > 0 { CutEntriesAt(entries, n - 1); }
  }

  lemma ArrayOfCuts(h: Heap, values: seq<Raw>, items: seq<Node>)
    requires Storage(h)
    requires |values| == |items| && forall k :: 0 <= k < |values| ==> ReadsAs(h, values[k], Cut(items[k]))
    ensures var (h1, raw) := PushArray(h, values); Storage(h1) && ReadsAs(h1, raw, Cut(Array(items)))
  {
    var cut := CutItems(items, |items|);
    CutItemsAt(items, |items|);
    CutItemsAt(items, Kept(|items|));
    ArrayStored(h, values, cut);
    assert cut[..Kept(|items|)] == CutItems(items, Kept(|items|));
  }

  lemma MapOfCuts(h: Heap, p: Pairs, entries: seq<Entry>)
    requires Storage(h) && |p.values| == |p.keys| == |entries|
    requires forall k :: 0 <= k < |entries| ==> EntryReadsAs(h, p.keys[k], p.values[k], CutEntry(entries[k]))
    ensures var (h1, raw) := PushMap(h, p); Storage(h1) && ReadsAs(h1, raw, Cut(Map(entries)))
  {
    var cut := CutEntries(entries, |entries|);
    CutEntriesAt(entries, |entries|);
    CutEntriesAt(entries, Kept(|entries|));
    MapStored(h, p, cut);
    assert cut[..Kept(|entries|)] == CutEntries(entries, Kept(|entries|));
  }

  /**
   * From any storage, `build` leaves a storage, whether it succeeds or fails part-way; and
   * the raw node it returns reads back, in bounds, as the tree with every list cut to the
   * length its 32-bit count can express.
   */
  lemma {:induction false} BuildReadsBack(h: Heap, node: Node)
    requires Storage(h)
    ensures var (h1, r) := Build(h, node);
            Extends(h, h1) && Storage(h1) && (r.Ok? ==> ReadsAs(h1, r.value, Cut(node)))
    decreases node, 0
  {
    BuildExtends(h, node);
    match node {
      case Str(s) =>
        if 0 !in s { StringStored(h, s); StorageIsMem(PushString(h, s).0); }
      case Array(items) =>
        BuildItemsReadBack(h, items, |items|);
        var (h1, r) := BuildItems(h, items, |items|);
        if r.Ok? { ArrayOfCuts(h1, r.value, items); }
      case Map(entries) =>
        BuildEntriesReadBack(h, entries, |entries|);
        var (h1, r) := BuildEntries(h, entries, |entries|);
        if r.Ok? { MapOfCuts(h1, r.value, entries); }
      case Bytes(data) => BytesStored(h, data);
      case _ => StorageIsMem(h);
    }
  }

  lemma {:induction false} BuildItemsReadBack(h: Heap, items: seq<Node>, n: nat)
    requires Storage(h) && n <= |items|
    ensures var (h1, r) := BuildItems(h, items, n);
            Storage(h1) && (r.Ok? ==> forall k :: 0 <= k < n ==> ReadsAs(h1, r.value[k], Cut(items[k])))
    decreases items, n
  {
    if n > 0 {
      BuildItemsReadBack(h, items, n - 1);
      var (h1, before) := BuildItems(h, items, n - 1);
      BuildReadsBack(h1, items[n - 1]);
      var (h2, last) := Build(h1, items[n - 1]);
      if before.Ok? && last.Ok? {
        forall k | 0 <= k < n - 1 ensures ReadsAs(h2, before.value[k], Cut(items[k])) {
          ReadsAsFrame(h1, h2, before.value[k], Cut(items[k]));
        }
      }
    }
  }

  /** One more entry: its key, then its value. */
  lemma EntryStep(h: Heap, h2: Heap, h3: Heap, p: Pairs, key: Ptr, value: Raw, cuts: seq<Entry>, n: nat)
    requires Storage(h) && Storage(h2) && Storage(h3) && Extends(h, h2) && Extends(h2, h3)
    requires |p.keys| == |p.values| == n && |cuts| > n
    requires forall k :: 0 <= k < n ==> EntryReadsAs(h, p.keys[k], p.values[k], cuts[k])
    requires OkStr(h2, key) && ReadCStr(h2.strings[key.index]) == cuts[n].key && ReadsAs(h3, value, cuts[n].value)
    ensures forall k :: 0 <= k < n + 1 ==> EntryReadsAs(h3, (p.keys + [key])[k], (p.values + [value])[k], cuts[k])
  {
    ExtendsTransitive(h, h2, h3);
    forall k | 0 <= k < n ensures EntryReadsAs(h3, p.keys[k], p.values[k], cuts[k]) {
      EntryFrame(h, h3, p.keys[k], p.values[k], cuts[k]);
    }
  }

  lemma {:induction false} BuildEntriesReadBack(h: Heap, entries: seq<Entry>, n: nat)
    requires Storage(h) && n <= |entries|
    ensures var (h1, r) := BuildEntries(h, entries, n);
            && Storage(h1)
            && (r.Ok? ==> forall k :: 0 <= k < n ==>
                  EntryReadsAs(h1, r.value.keys[k], r.value.values[k], CutEntry(entries[k])))
    decreases entries, n
  {
    if n > 0 {
      BuildEntriesReadBack(h, entries, n - 1);
      var (h1, before) := BuildEntries(h, entries, n - 1);
      var e := entries[n - 1];
      if before.Ok? && 0 !in e.key {
        var (h2, key) := PushString(h1, e.key);
        StringStored(h1, e.key);
        BuildReadsBack(h2, e.value);
        var (h3, last) := Build(h2, e.value);
        if last.Ok? {
          var cuts := CutEntries(entries, n);
          CutEntriesAt(entries, n);
          EntryStep(h1, h2, h3, before.value, key.value, last.value, cuts, n - 1);
        }
      }
    }
  }
}
