/**
 * What a raw node means, and how `build` lays it out, written down without the decoder and
 * the encoder: relations between memory and trees, recursive on the tree, with the numbers
 * of libmpv's client.h (formats 0 to 9).  The decoder and the encoder satisfy them.
 */
module NodeMeaning {
  import opened Common
  import opened NodeModel
  import opened NodeTheorems

  // ----- what a raw node means -----

  /** The bytes at p up to the first NUL are s. */
  predicate TextIs(h: Heap, p: Ptr, s: seq<Byte>) {
    && PtrIn(p, Strings, |h.strings|)
    && var buf := h.strings[p.index];
       |s| < |buf| && buf[|s|] == 0 && forall k :: 0 <= k < |s| ==> s[k] == buf[k] && s[k] != 0
  }

  /** The number of items a list shows: a negative count shows none. */
  predicate Shows(l: RawList, n: nat) {
    if l.num < 0 then n == 0 else n == l.num
  }

  predicate HasValue(h: Heap, l: RawList, k: nat) {
    PtrIn(l.values, NodeArrays, |h.nodeArrays|) && k < |h.nodeArrays[l.values.index]|
  }

  function ValueOf(h: Heap, l: RawList, k: nat): Raw
    requires HasValue(h, l, k)
  {
    h.nodeArrays[l.values.index][k]
  }

  predicate KeyIs(h: Heap, l: RawList, k: nat, s: seq<Byte>) {
    PtrIn(l.keys, KeyArrays, |h.keyArrays|) && k < |h.keyArrays[l.keys.index]|
    && TextIs(h, h.keyArrays[l.keys.index][k], s)
  }

  predicate DataIs(h: Heap, b: RawBytes, data: seq<Byte>) {
    && b.size == |data|
    && (data != [] ==>
          && PtrIn(b.data, ByteData, |h.byteData|) && |data| <= |h.byteData[b.data.index]|
          && forall k :: 0 <= k < |data| ==> data[k] == h.byteData[b.data.index][k])
  }

  /** The raw node denotes the tree. */
  ghost predicate NodeIs(h: Heap, raw: Raw, node: Node)
    decreases node
  {
    match node
    case Empty => raw.format !in {1, 3, 4, 5, 7, 8, 9}
    case Flag(v) => raw.format == 3 && raw.u.AsFlag? && (v <==> raw.u.flag != 0)
    case Int(n) => raw.format == 4 && raw.u == AsInt(n)
    case Double(b) => raw.format == 5 && raw.u == AsDouble(b)
    case Str(s) => raw.format == 1 && raw.u.AsPtr? && TextIs(h, raw.u.ptr, s)
    case Array(items) =>
      && raw.format == 7 && Points(raw.u, Lists, |h.lists|)
      && var l := h.lists[raw.u.ptr.index];
         && Shows(l, |items|)
         && forall k :: 0 <= k < |items| ==> HasValue(h, l, k) && NodeIs(h, ValueOf(h, l, k), items[k])
    case Map(entries) =>
      && raw.format == 8 && Points(raw.u, Lists, |h.lists|)
      && var l := h.lists[raw.u.ptr.index];
         && Shows(l, |entries|)
         && (forall k :: 0 <= k < |entries| ==> KeyIs(h, l, k, entries[k].key))
         && (forall k :: 0 <= k < |entries| ==> HasValue(h, l, k) && NodeIs(h, ValueOf(h, l, k), entries[k].value))
    case Bytes(data) =>
      && raw.format == 9 && Points(raw.u, ByteArrays, |h.byteArrays|)
      && DataIs(h, h.byteArrays[raw.u.ptr.index], data)
  }

  lemma TextRead(h: Heap, p: Ptr)
    requires OkStr(h, p)
    ensures TextIs(h, p, ReadCStr(h.strings[p.index]))
  {
    var buf := h.strings[p.index];
    var s := ReadCStr(buf);
    forall k | 0 <= k < |s| ensures s[k] == buf[k] && s[k] != 0 {
      assert buf[..|s|][k] == buf[k];
      assert s[k] in s;
    }
  }

  /** Every readable raw node decodes to the tree it denotes: of every format, wherever it comes
      from, whatever its unused pointers are. */
  lemma {:induction false} DecodeIsRight(h: Heap, rank: seq<nat>, raw: Raw)
    requires Mem(h, rank) && OkRaw(h, raw)
    ensures NodeIs(h, raw, Decode(h, rank, raw))
    decreases Depth(rank, raw), 0, 0
  {
    if raw.format == FORMAT_STRING {
      TextRead(h, raw.u.ptr);
    } else if raw.format == FORMAT_NODE_ARRAY {
      var i := raw.u.ptr.index;
      var n := Count(h.lists[i]);
      ItemsAreRight(h, rank, i, n);
    } else if raw.format == FORMAT_NODE_MAP {
      var i := raw.u.ptr.index;
      EntriesAreRight(h, rank, i, Count(h.lists[i]));
    }
  }

  lemma ItemIsThere(h: Heap, rank: seq<nat>, i: nat, k: nat)
    requires Mem(h, rank) && i < |h.lists| && k < Count(h.lists[i])
    ensures HasValue(h, h.lists[i], k) && ValueOf(h, h.lists[i], k) == Item(h, rank, i, k)
  {
    assert OkItem(h, rank, i, k);
  }

  lemma {:induction false} ItemsAreRight(h: Heap, rank: seq<nat>, i: nat, n: nat)
    requires Mem(h, rank) && i < |h.lists| && n <= Count(h.lists[i])
    ensures var items := DecodeItems(h, rank, i, n);
            forall k :: 0 <= k < n ==> HasValue(h, h.lists[i], k) && NodeIs(h, ValueOf(h, h.lists[i], k), items[k])
    decreases rank[i], 1, n
  {
    if n > 0 {
      ItemsAreRight(h, rank, i, n - 1);
      ItemIsThere(h, rank, i, n - 1);
      DecodeIsRight(h, rank, Item(h, rank, i, n - 1));
    }
  }

  lemma {:induction false} EntriesAreRight(h: Heap, rank: seq<nat>, i: nat, n: nat)
    requires Mem(h, rank) && i < |h.lists| && OkKeys(h, h.lists[i]) && n <= Count(h.lists[i])
    ensures var entries := DecodeEntries(h, rank, i, n); var l := h.lists[i];
            && (forall k :: 0 <= k < n ==> KeyIs(h, l, k, entries[k].key))
            && (forall k :: 0 <= k < n ==> HasValue(h, l, k) && NodeIs(h, ValueOf(h, l, k), entries[k].value))
    decreases rank[i], 1, n
  {
    if n > 0 {
      EntriesAreRight(h, rank, i, n - 1);
      ItemIsThere(h, rank, i, n - 1);
      DecodeIsRight(h, rank, Item(h, rank, i, n - 1));
      TextRead(h, h.keyArrays[h.lists[i].keys.index][n - 1]);
      var entries := DecodeEntries(h, rank, i, n);
      assert entries[..n - 1] == DecodeEntries(h, rank, i, n - 1);
      assert forall k :: 0 <= k < n - 1 ==> entries[k] == entries[..n - 1][k];
    }
  }

  /** A raw node denotes at most one tree. */
  lemma {:induction false} OneMeaning(h: Heap, raw: Raw, a: Node, b: Node)
    requires NodeIs(h, raw, a) && NodeIs(h, raw, b)
    ensures a == b
    decreases a
  {
    match a
    case Str(s) => OneText(h, raw.u.ptr, s, b.text);
    case Array(items) =>
      var l := h.lists[raw.u.ptr.index];
      forall k | 0 <= k < |items| ensures items[k] == b.items[k] {
        OneMeaning(h, ValueOf(h, l, k), items[k], b.items[k]);
      }
    case Map(entries) =>
      var l := h.lists[raw.u.ptr.index];
      forall k | 0 <= k < |entries| ensures entries[k] == b.entries[k] {
        assert KeyIs(h, l, k, entries[k].key) && KeyIs(h, l, k, b.entries[k].key);
        OneText(h, h.keyArrays[l.keys.index][k], entries[k].key, b.entries[k].key);
        OneMeaning(h, ValueOf(h, l, k), entries[k].value, b.entries[k].value);
      }
    case Bytes(data) =>
    case _ =>
  }

  lemma OneText(h: Heap, p: Ptr, s: seq<Byte>, t: seq<Byte>)
    requires TextIs(h, p, s) && TextIs(h, p, t)
    ensures s == t
  {
  }

  // ----- how build lays a tree out -----

  /** The NUL-terminated bytes of s, and no more. */
  predicate TextStored(h: Heap, p: Ptr, s: seq<Byte>) {
    PtrIn(p, Strings, |h.strings|) && h.strings[p.index] == s + [0] && 0 !in s
  }

  /** A list of n values that counts them in 32 bits. */
  predicate Counts(h: Heap, l: RawList, n: nat) {
    && (n - l.num) % 0x1_0000_0000 == 0
    && PtrIn(l.values, NodeArrays, |h.nodeArrays|) && |h.nodeArrays[l.values.index]| == n
  }

  /** The raw node is the tree, as libmpv expects it: the union member its format announces, 1
      for true, no keys in an array, and exactly as many values, keys and bytes as the tree has. */
  ghost predicate BuiltAs(h: Heap, raw: Raw, node: Node)
    decreases node
  {
    match node
    case Empty => raw == Raw(AsInt(0), 0)
    case Flag(v) => raw == Raw(AsFlag(if v then 1 else 0), 3)
    case Int(n) => raw == Raw(AsInt(n), 4)
    case Double(b) => raw == Raw(AsDouble(b), 5)
    case Str(s) => raw.format == 1 && raw.u.AsPtr? && TextStored(h, raw.u.ptr, s)
    case Array(items) =>
      && raw.format == 7 && Points(raw.u, Lists, |h.lists|)
      && var l := h.lists[raw.u.ptr.index];
         && Counts(h, l, |items|) && l.keys.Null?
         && forall k :: 0 <= k < |items| ==> BuiltAs(h, h.nodeArrays[l.values.index][k], items[k])
    case Map(entries) =>
      && raw.format == 8 && Points(raw.u, Lists, |h.lists|)
      && var l := h.lists[raw.u.ptr.index];
         && Counts(h, l, |entries|)
         && PtrIn(l.keys, KeyArrays, |h.keyArrays|) && |h.keyArrays[l.keys.index]| == |entries|
         && forall k :: 0 <= k < |entries| ==>
              && TextStored(h, h.keyArrays[l.keys.index][k], entries[k].key)
              && BuiltAs(h, h.nodeArrays[l.values.index][k], entries[k].value)
    case Bytes(data) =>
      && raw.format == 9 && Points(raw.u, ByteArrays, |h.byteArrays|)
      && var b := h.byteArrays[raw.u.ptr.index];
         b.size == |data| && PtrIn(b.data, ByteData, |h.byteData|) && h.byteData[b.data.index] == data
  }

  /** Memory that grows keeps the layout. */
  lemma {:induction false} BuiltAsFrame(h: Heap, h': Heap, raw: Raw, node: Node)
    requires Extends(h, h') && BuiltAs(h, raw, node)
    ensures BuiltAs(h', raw, node)
    decreases node
  {
    match node
    case Array(items) =>
      var l := h.lists[raw.u.ptr.index];
      forall k | 0 <= k < |items| ensures BuiltAs(h', h.nodeArrays[l.values.index][k], items[k]) {
        BuiltAsFrame(h, h', h.nodeArrays[l.values.index][k], items[k]);
      }
    case Map(entries) =>
      var l := h.lists[raw.u.ptr.index];
      forall k | 0 <= k < |entries| ensures BuiltAs(h', h.nodeArrays[l.values.index][k], entries[k].value) {
        BuiltAsFrame(h, h', h.nodeArrays[l.values.index][k], entries[k].value);
      }
    case _ =>
  }

  lemma ArrayLaidOut(h: Heap, values: seq<Raw>, items: seq<Node>)
    requires |values| == |items| && forall k :: 0 <= k < |items| ==> BuiltAs(h, values[k], items[k])
    ensures BuiltAs(PushArray(h, values).0, PushArray(h, values).1, Array(items))
  {
    var h1 := PushArray(h, values).0;
    forall k | 0 <= k < |items| ensures BuiltAs(h1, values[k], items[k]) {
      BuiltAsFrame(h, h1, values[k], items[k]);
    }
  }

  lemma MapLaidOut(h: Heap, p: Pairs, entries: seq<Entry>)
    requires |p.values| == |p.keys| == |entries|
    requires forall k :: 0 <= k < |entries| ==> EntryBuiltAs(h, p.keys[k], p.values[k], entries[k])
    ensures BuiltAs(PushMap(h, p).0, PushMap(h, p).1, Map(entries))
  {
    var h1 := PushMap(h, p).0;
    forall k | 0 <= k < |entries| ensures EntryBuiltAs(h1, p.keys[k], p.values[k], entries[k]) {
      BuiltAsFrame(h, h1, p.values[k], entries[k].value);
    }
  }

  /** A successful build returns the tree, laid out so. */
  lemma {:induction false} BuildLaysOut(h: Heap, node: Node)
    requires Build(h, node).1.Ok?
    ensures BuiltAs(Build(h, node).0, Build(h, node).1.value, node)
    decreases node, 0
  {
    match node
    case Array(items) =>
      var (h1, r) := BuildItems(h, items, |items|);
      ItemsLaidOut(h, items, |items|);
      ArrayLaidOut(h1, r.value, items);
    case Map(entries) =>
      var (h1, r) := BuildEntries(h, entries, |entries|);
      EntriesLaidOut(h, entries, |entries|);
      MapLaidOut(h1, r.value, entries);
    case _ =>
  }

  ghost predicate EntryBuiltAs(h: Heap, key: Ptr, value: Raw, e: Entry) {
    TextStored(h, key, e.key) && BuiltAs(h, value, e.value)
  }

  lemma {:induction false} ItemsLaidOut(h: Heap, items: seq<Node>, n: nat)
    requires n <= |items| && BuildItems(h, items, n).1.Ok?
    ensures var (h1, r) := BuildItems(h, items, n); forall k :: 0 <= k < n ==> BuiltAs(h1, r.value[k], items[k])
    decreases items, n
  {
    if n > 0 {
      ItemsLaidOut(h, items, n - 1);
      var (h1, before) := BuildItems(h, items, n - 1);
      BuildLaysOut(h1, items[n - 1]);
      BuildExtends(h1, items[n - 1]);
      var h2 := Build(h1, items[n - 1]).0;
      forall k | 0 <= k < n - 1 ensures BuiltAs(h2, before.value[k], items[k]) {
        BuiltAsFrame(h1, h2, before.value[k], items[k]);
      }
    }
  }

  lemma {:induction false} EntriesLaidOut(h: Heap, entries: seq<Entry>, n: nat)
    requires n <= |entries| && BuildEntries(h, entries, n).1.Ok?
    ensures var (h1, r) := BuildEntries(h, entries, n);
            forall k :: 0 <= k < n ==> EntryBuiltAs(h1, r.value.keys[k], r.value.values[k], entries[k])
    decreases entries, n
  {
    if n > 0 {
      EntriesLaidOut(h, entries, n - 1);
      var (h1, before) := BuildEntries(h, entries, n - 1);
      var h2 := PushString(h1, entries[n - 1].key).0;
      BuildLaysOut(h2, entries[n - 1].value);
      BuildExtends(h2, entries[n - 1].value);
      var h3 := Build(h2, entries[n - 1].value).0;
      ExtendsTransitive(h1, h2, h3);
      forall k | 0 <= k < n - 1 ensures EntryBuiltAs(h3, before.value.keys[k], before.value.values[k], entries[k]) {
        BuiltAsFrame(h1, h3, before.value.values[k], entries[k].value);
      }
    }
  }
}
