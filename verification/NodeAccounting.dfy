/** Which trees a build accepts, keeps whole, and pays for with exactly which allocations. */
module NodeAccounting {
  import opened Common
  import opened NodeModel
  import opened NodeTheorems

  // ----- when the round trip is the identity -----

  /** Every list, at any depth, has at most 2^31 - 1 items. */
  predicate Fits(node: Node)
    decreases node, 0
  {
    match node
    case Array(items) => |items| < 0x8000_0000 && FitsItems(items, |items|)
    case Map(entries) => |entries| < 0x8000_0000 && FitsEntries(entries, |entries|)
    case _ => true
  }

  predicate FitsItems(items: seq<Node>, n: nat)
    requires n <= |items|
    decreases items, n
  {
    n > 0 ==> FitsItems(items, n - 1) && Fits(items[n - 1])
  }

  predicate FitsEntries(entries: seq<Entry>, n: nat)
    requires n <= |entries|
    decreases entries, n
  {
    n > 0 ==> FitsEntries(entries, n - 1) && Fits(entries[n - 1].value)
  }

  /** The cut tree is the tree itself exactly when no list is too long for a c_int. */
  lemma {:induction false} CutIsIdentityIff(node: Node)
    ensures Cut(node) == node <==> Fits(node)
    decreases node, 0
  {
    match node
    case Array(items) =>
      WrapBelow(|items|);
      CutItemsIdentity(items, |items|);
      assert items[..|items|] == items;
    case Map(entries) =>
      WrapBelow(|entries|);
      CutEntriesIdentity(entries, |entries|);
      assert entries[..|entries|] == entries;
    case _ =>
  }

  lemma {:induction false} CutItemsIdentity(items: seq<Node>, n: nat)
    requires n <= |items|
    ensures CutItems(items, n) == items[..n] <==> FitsItems(items, n)
    decreases items, n
  {
    if n > 0 {
      CutItemsIdentity(items, n - 1);
      CutIsIdentityIff(items[n - 1]);
      assert items[..n] == items[..n - 1] + [items[n - 1]];
      var r := CutItems(items, n);
      assert r[..n - 1] == CutItems(items, n - 1) && r[n - 1] == Cut(items[n - 1]);
      assert items[..n][..n - 1] == items[..n - 1];
    }
  }

  lemma {:induction false} CutEntriesIdentity(entries: seq<Entry>, n: nat)
    requires n <= |entries|
    ensures CutEntries(entries, n) == entries[..n] <==> FitsEntries(entries, n)
    decreases entries, n
  {
    if n > 0 {
      CutEntriesIdentity(entries, n - 1);
      CutIsIdentityIff(entries[n - 1].value);
      assert entries[..n] == entries[..n - 1] + [entries[n - 1]];
      var r := CutEntries(entries, n);
      assert r[..n - 1] == CutEntries(entries, n - 1) && r[n - 1] == CutEntry(entries[n - 1]);
      assert entries[..n][..n - 1] == entries[..n - 1];
    }
  }

  // ----- when a build fails -----

  /** Some string or map key, at any depth, contains a NUL byte. */
  predicate HasNul(node: Node)
    decreases node, 0
  {
    match node
    case Str(s) => 0 in s
    case Array(items) => ItemsHaveNul(items, |items|)
    case Map(entries) => EntriesHaveNul(entries, |entries|)
    case _ => false
  }

  predicate ItemsHaveNul(items: seq<Node>, n: nat)
    requires n <= |items|
    decreases items, n
  {
    n > 0 && (ItemsHaveNul(items, n - 1) || HasNul(items[n - 1]))
  }

  predicate EntriesHaveNul(entries: seq<Entry>, n: nat)
    requires n <= |entries|
    decreases entries, n
  {
    n > 0 && (EntriesHaveNul(entries, n - 1) || 0 in entries[n - 1].key || HasNul(entries[n - 1].value))
  }

  /** `build` fails exactly on an interior NUL somewhere, and always with that error. */
  lemma {:induction false} BuildFailsIff(h: Heap, node: Node)
    ensures Build(h, node).1.Err? <==> HasNul(node)
    ensures Build(h, node).1.Err? ==> Build(h, node).1.error == InteriorNul
    decreases node, 0
  {
    match node
    case Array(items) => ItemsFailIff(h, items, |items|);
    case Map(entries) => EntriesFailIff(h, entries, |entries|);
    case _ =>
  }

  lemma {:induction false} ItemsFailIff(h: Heap, items: seq<Node>, n: nat)
    requires n <= |items|
    ensures BuildItems(h, items, n).1.Err? <==> ItemsHaveNul(items, n)
    ensures BuildItems(h, items, n).1.Err? ==> BuildItems(h, items, n).1.error == InteriorNul
    decreases items, n
  {
    if n > 0 {
      ItemsFailIff(h, items, n - 1);
      BuildFailsIff(BuildItems(h, items, n - 1).0, items[n - 1]);
    }
  }

  lemma {:induction false} EntriesFailIff(h: Heap, entries: seq<Entry>, n: nat)
    requires n <= |entries|
    ensures BuildEntries(h, entries, n).1.Err? <==> EntriesHaveNul(entries, n)
    ensures BuildEntries(h, entries, n).1.Err? ==> BuildEntries(h, entries, n).1.error == InteriorNul
    decreases entries, n
  {
    if n > 0 {
      EntriesFailIff(h, entries, n - 1);
      var h1 := BuildEntries(h, entries, n - 1).0;
      BuildFailsIff(PushString(h1, entries[n - 1].key).0, entries[n - 1].value);
    }
  }

  // ----- the main results, assembled -----

  /** A tree without NULs and without overlong lists survives build and from_raw unchanged,
      whatever the storage already holds. */
  lemma RoundTrip(h: Heap, node: Node)
    requires Storage(h) && !HasNul(node)
    ensures var (h1, r) := Build(h, node);
            && Storage(h1) && r.Ok? && ReadsAs(h1, r.value, Cut(node))
            && (Fits(node) ==> ReadsAs(h1, r.value, node))
  {
    BuildFailsIff(h, node);
    BuildReadsBack(h, node);
    CutIsIdentityIff(node);
  }

  lemma {:induction false} EmptiesHaveNoNul(items: seq<Node>, n: nat)
    requires n <= |items| && forall k :: 0 <= k < |items| ==> items[k] == Empty
    ensures !ItemsHaveNul(items, n)
  {
    if n > 0 { EmptiesHaveNoNul(items, n - 1); }
  }

  /** An array one item too long for a c_int builds without an error, with a negative count,
      and reads back with no items at all. */
  lemma OverlongArrayReadsBackEmpty(items: seq<Node>)
    requires |items| == 0x8000_0000 && forall k :: 0 <= k < |items| ==> items[k] == Empty
    ensures var (h1, r) := Build(EMPTY_HEAP, Array(items));
            && Storage(h1) && r.Ok? && ReadsAs(h1, r.value, Array([]))
            && !ReadsAs(h1, r.value, Array(items))
  {
    EmptiesHaveNoNul(items, |items|);
    RoundTrip(EMPTY_HEAP, Array(items));
    assert Cut(Array(items)) == Array([]);
  }

  /** A count that wraps a whole turn: an array of 2^32 + 1 items reads back as its first item. */
  lemma WrappedArrayKeepsOne(items: seq<Node>)
    requires |items| == 0x1_0000_0001 && forall k :: 0 <= k < |items| ==> items[k] == Empty
    ensures var (h1, r) := Build(EMPTY_HEAP, Array(items));
            Storage(h1) && r.Ok? && ReadsAs(h1, r.value, Array([Empty]))
  {
    EmptiesHaveNoNul(items, |items|);
    RoundTrip(EMPTY_HEAP, Array(items));
    assert CutItems(items, 0) == [];
    assert CutItems(items, 1) == [Empty];
  }

  /** A further build, whether it succeeds or fails part-way, leaves the storage well formed
      and changes nothing about any node returned before. */
  lemma EarlierNodesUnchanged(h: Heap, node: Node, earlier: Raw, tree: Node)
    requires Storage(h) && ReadsAs(h, earlier, tree)
    ensures Storage(Build(h, node).0) && ReadsAs(Build(h, node).0, earlier, tree)
  {
    BuildReadsBack(h, node);
    ReadsAsFrame(h, Build(h, node).0, earlier, tree);
  }

  // ----- what a build allocates -----

  function Size(h: Heap, a: Arena): nat {
    match a
    case Strings => |h.strings|
    case Lists => |h.lists|
    case NodeArrays => |h.nodeArrays|
    case KeyArrays => |h.keyArrays|
    case ByteArrays => |h.byteArrays|
    case ByteData => |h.byteData|
  }

  /** Nodes of the tree that need an allocation in arena a: strings and map keys, arrays and
      maps, maps, byte arrays. */
  function Needs(node: Node, a: Arena): nat
    decreases node, 0
  {
    match node
    case Str(_) => Bit(a == Strings)
    case Array(items) => Bit(a == Lists || a == NodeArrays) + ItemsNeed(items, |items|, a)
    case Map(entries) => Bit(a == Lists || a == NodeArrays || a == KeyArrays) + EntriesNeed(entries, |entries|, a)
    case Bytes(_) => Bit(a == ByteArrays || a == ByteData)
    case _ => 0
  }

  function ItemsNeed(items: seq<Node>, n: nat, a: Arena): nat
    requires n <= |items|
    decreases items, n
  {
    if n == 0 then 0 else ItemsNeed(items, n - 1, a) + Needs(items[n - 1], a)
  }

  function EntriesNeed(entries: seq<Entry>, n: nat, a: Arena): nat
    requires n <= |entries|
    decreases entries, n
  {
    if n == 0 then 0 else EntriesNeed(entries, n - 1, a) + Bit(a == Strings) + Needs(entries[n - 1].value, a)
  }

  /** A successful build allocates exactly what the tree needs, arena by arena. */
  lemma {:induction false} BuildAllocates(h: Heap, node: Node, a: Arena)
    requires Build(h, node).1.Ok?
    ensures Size(Build(h, node).0, a) == Size(h, a) + Needs(node, a)
    decreases node, 0
  {
    match node
    case Array(items) => ItemsAllocate(h, items, |items|, a);
    case Map(entries) => EntriesAllocate(h, entries, |entries|, a);
    case _ =>
  }

  lemma {:induction false} ItemsAllocate(h: Heap, items: seq<Node>, n: nat, a: Arena)
    requires n <= |items| && BuildItems(h, items, n).1.Ok?
    ensures Size(BuildItems(h, items, n).0, a) == Size(h, a) + ItemsNeed(items, n, a)
    decreases items, n
  {
    if n > 0 {
      ItemsAllocate(h, items, n - 1, a);
      BuildAllocates(BuildItems(h, items, n - 1).0, items[n - 1], a);
    }
  }

  lemma {:induction false} EntriesAllocate(h: Heap, entries: seq<Entry>, n: nat, a: Arena)
    requires n <= |entries| && BuildEntries(h, entries, n).1.Ok?
    ensures Size(BuildEntries(h, entries, n).0, a) == Size(h, a) + EntriesNeed(entries, n, a)
    decreases entries, n
  {
    if n > 0 {
      EntriesAllocate(h, entries, n - 1, a);
      var h1 := BuildEntries(h, entries, n - 1).0;
      BuildAllocates(PushString(h1, entries[n - 1].key).0, entries[n - 1].value, a);
    }
  }

  // ----- what a build allocates before it fails -----

  /** Allocations in arena a made until the first NUL, if there is one: items in order, each
      key before its value, the list itself only when all its items are there. */
  function Made(node: Node, a: Arena): nat
    decreases node, 0
  {
    match node
    case Str(s) => Bit(a == Strings && 0 !in s)
    case Array(items) =>
      ItemsMade(items, |items|, a) + Bit((a == Lists || a == NodeArrays) && !ItemsHaveNul(items, |items|))
    case Map(entries) =>
      EntriesMade(entries, |entries|, a)
      + Bit((a == Lists || a == NodeArrays || a == KeyArrays) && !EntriesHaveNul(entries, |entries|))
    case Bytes(_) => Bit(a == ByteArrays || a == ByteData)
    case _ => 0
  }

  function ItemsMade(items: seq<Node>, n: nat, a: Arena): nat
    requires n <= |items|
    decreases items, n
  {
    if n == 0 then 0
    else ItemsMade(items, n - 1, a) + if ItemsHaveNul(items, n - 1) then 0 else Made(items[n - 1], a)
  }

  function EntriesMade(entries: seq<Entry>, n: nat, a: Arena): nat
    requires n <= |entries|
    decreases entries, n
  {
    if n == 0 then 0
    else
      EntriesMade(entries, n - 1, a)
      + if EntriesHaveNul(entries, n - 1) || 0 in entries[n - 1].key then 0
        else Bit(a == Strings) + Made(entries[n - 1].value, a)
  }

  /** A build that fails keeps what it had allocated by then, and allocates nothing more. */
  lemma {:induction false} BuildMakes(h: Heap, node: Node, a: Arena)
    ensures Size(Build(h, node).0, a) == Size(h, a) + Made(node, a)
    decreases node, 0
  {
    match node
    case Array(items) =>
      ItemsFailIff(h, items, |items|);
      ItemsMake(h, items, |items|, a);
    case Map(entries) =>
      EntriesFailIff(h, entries, |entries|);
      EntriesMake(h, entries, |entries|, a);
    case _ =>
  }

  lemma {:induction false} ItemsMake(h: Heap, items: seq<Node>, n: nat, a: Arena)
    requires n <= |items|
    ensures Size(BuildItems(h, items, n).0, a) == Size(h, a) + ItemsMade(items, n, a)
    decreases items, n
  {
    if n > 0 {
      ItemsMake(h, items, n - 1, a);
      ItemsFailIff(h, items, n - 1);
      BuildMakes(BuildItems(h, items, n - 1).0, items[n - 1], a);
    }
  }

  lemma {:induction false} EntriesMake(h: Heap, entries: seq<Entry>, n: nat, a: Arena)
    requires n <= |entries|
    ensures Size(BuildEntries(h, entries, n).0, a) == Size(h, a) + EntriesMade(entries, n, a)
    decreases entries, n
  {
    if n > 0 {
      EntriesMake(h, entries, n - 1, a);
      EntriesFailIff(h, entries, n - 1);
      var h1 := BuildEntries(h, entries, n - 1).0;
      BuildMakes(PushString(h1, entries[n - 1].key).0, entries[n - 1].value, a);
    }
  }

  // ----- which allocations a node reaches -----

  ghost predicate OkBelow(h: Heap, values: seq<Raw>, bound: nat) {
    forall k :: 0 <= k < |values| ==> OkRaw(h, values[k]) && Level(values[k]) <= bound
  }

  /** How many pointers to the allocation `cell` the graph below raw contains. */
  ghost function Refs(h: Heap, raw: Raw, cell: Ptr): nat
    requires Storage(h) && OkRaw(h, raw)
    decreases Level(raw), 0, 0
  {
    if raw.format == FORMAT_STRING then Bit(raw.u.ptr == cell)
    else if raw.format == FORMAT_BYTE_ARRAY then
      Bit(raw.u.ptr == cell) + Bit(h.byteArrays[raw.u.ptr.index].data == cell)
    else if IsListFormat(raw.format) then
      var l := h.lists[raw.u.ptr.index];
      assert StoredList(h, l);
      ItemsBelow(h, raw.u.ptr.index);
      Bit(raw.u.ptr == cell) + Bit(l.values == cell)
      + (if l.keys.At? then Bit(l.keys == cell) + PtrSum(h.keyArrays[l.keys.index], cell) else 0)
      + RefSum(h, h.nodeArrays[l.values.index], |h.nodeArrays[l.values.index]|, raw.u.ptr.index, cell)
    else 0
  }

  lemma ItemsBelow(h: Heap, i: nat)
    requires Storage(h) && i < |h.lists|
    ensures PtrIn(h.lists[i].values, NodeArrays, |h.nodeArrays|)
    ensures OkBelow(h, h.nodeArrays[h.lists[i].values.index], i)
  {
    assert StoredList(h, h.lists[i]);
    var values := h.nodeArrays[h.lists[i].values.index];
    forall k | 0 <= k < |values| ensures OkRaw(h, values[k]) && Level(values[k]) <= i {
      assert StoredItem(h, i, k);
    }
  }

  ghost function RefSum(h: Heap, values: seq<Raw>, n: nat, bound: nat, cell: Ptr): nat
    requires Storage(h) && n <= |values| && OkBelow(h, values, bound)
    decreases bound, 1, n
  {
    if n == 0 then 0 else RefSum(h, values, n - 1, bound, cell) + Refs(h, values[n - 1], cell)
  }

  function PtrSum(keys: seq<Ptr>, cell: Ptr): nat {
    if keys == [] then 0 else PtrSum(keys[..|keys| - 1], cell) + Bit(keys[|keys| - 1] == cell)
  }

  lemma {:induction false} RefsFrame(h: Heap, h': Heap, raw: Raw, cell: Ptr)
    requires Storage(h) && Storage(h') && Extends(h, h') && OkRaw(h, raw)
    ensures OkRaw(h', raw) && Refs(h', raw, cell) == Refs(h, raw, cell)
    decreases Level(raw), 0, 0
  {
    OkRawFrame(h, h', raw);
    if IsListFormat(raw.format) {
      var i := raw.u.ptr.index;
      ItemsBelow(h, i);
      var values := h.nodeArrays[h.lists[i].values.index];
      RefSumFrame(h, h', values, |values|, i, i, cell);
      assert StoredList(h, h.lists[i]);
    }
  }

  lemma {:induction false} RefSumFrame(h: Heap, h': Heap, values: seq<Raw>, n: nat, bound: nat, bound': nat, cell: Ptr)
    requires Storage(h) && Storage(h') && Extends(h, h') && n <= |values|
    requires OkBelow(h, values, bound) && (forall k :: 0 <= k < |values| ==> Level(values[k]) <= bound')
    ensures OkBelow(h', values, bound') && RefSum(h', values, n, bound', cell) == RefSum(h, values, n, bound, cell)
    decreases bound, 1, n
  {
    forall k | 0 <= k < |values| ensures OkRaw(h', values[k]) { OkRawFrame(h, h', values[k]); }
    if n > 0 {
      RefSumFrame(h, h', values, n - 1, bound, bound', cell);
      RefsFrame(h, h', values[n - 1], cell);
    }
  }
}
