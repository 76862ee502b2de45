/**
 * The two forms of an mpv value (rsmpv/src/node.rs): the owned tree `Node`, and the raw
 * `mpv_node`, whose strings, lists and byte arrays are reached through C pointers.
 *
 * Memory is six arenas of allocations; a pointer is an arena and the index of an
 * allocation in it.  C strings are byte buffers that must contain a NUL, and the length
 * of a list is a 32-bit `c_int`.
 */
module NodeModel {
  import opened Common

  type Byte = x: int | 0 <= x < 0x100
  type CInt = x: int | -0x8000_0000 <= x < 0x8000_0000
  type Int64 = x: int | -0x8000_0000_0000_0000 <= x < 0x8000_0000_0000_0000
  /** The bit pattern of a double; arithmetic on it is never needed. */
  type Bits64 = x: int | 0 <= x < 0x1_0000_0000_0000_0000

  // ----- the owned tree -----

  datatype Node =
    | Empty
    | Flag(flag: bool)
    | Int(int64: Int64)
    | Double(bits: Bits64)
    | Str(text: seq<Byte>)
    | Array(items: seq<Node>)
    | Map(entries: seq<Entry>)
    | Bytes(data: seq<Byte>)

  datatype Entry = Entry(key: seq<Byte>, value: Node)

  // ----- raw memory -----

  datatype Arena = Strings | Lists | NodeArrays | KeyArrays | ByteArrays | ByteData

  datatype Ptr = Null | At(arena: Arena, index: nat)

  /** The value union of `mpv_node`: which member was written last. */
  datatype Value = AsFlag(flag: CInt) | AsInt(int64: Int64) | AsDouble(bits: Bits64) | AsPtr(ptr: Ptr)

  datatype Raw = Raw(u: Value, format: int)

  datatype RawList = RawList(num: CInt, values: Ptr, keys: Ptr)

  datatype RawBytes = RawBytes(data: Ptr, size: nat)

  datatype Heap = Heap(
    strings: seq<seq<Byte>>,
    lists: seq<RawList>,
    nodeArrays: seq<seq<Raw>>,
    keyArrays: seq<seq<Ptr>>,
    byteArrays: seq<RawBytes>,
    byteData: seq<seq<Byte>>)

  const EMPTY_HEAP := Heap([], [], [], [], [], [])

  const FORMAT_NONE := 0
  const FORMAT_STRING := 1
  const FORMAT_FLAG := 3
  const FORMAT_INT64 := 4
  const FORMAT_DOUBLE := 5
  const FORMAT_NODE_ARRAY := 7
  const FORMAT_NODE_MAP := 8
  const FORMAT_BYTE_ARRAY := 9

  predicate IsListFormat(f: int) {
    f == FORMAT_NODE_ARRAY || f == FORMAT_NODE_MAP
  }

  // ----- what makes a raw node readable -----

  predicate Points(u: Value, arena: Arena, size: nat) {
    u.AsPtr? && PtrIn(u.ptr, arena, size)
  }

  predicate PtrIn(p: Ptr, arena: Arena, size: nat) {
    p.At? && p.arena == arena && p.index < size
  }

  /** A pointer to a NUL-terminated string. */
  predicate OkStr(h: Heap, p: Ptr) {
    PtrIn(p, Strings, |h.strings|) && 0 in h.strings[p.index]
  }

  /** `num.max(0) as usize`: how many items of a list are ever looked at. */
  function Count(l: RawList): nat {
    if l.num > 0 then l.num else 0
  }

  predicate OkValues(h: Heap, l: RawList) {
    Count(l) > 0 ==> PtrIn(l.values, NodeArrays, |h.nodeArrays|) && Count(l) <= |h.nodeArrays[l.values.index]|
  }

  predicate OkKeys(h: Heap, l: RawList) {
    Count(l) > 0 ==>
      && PtrIn(l.keys, KeyArrays, |h.keyArrays|)
      && Count(l) <= |h.keyArrays[l.keys.index]|
      && forall i :: 0 <= i < Count(l) ==> OkStr(h, h.keyArrays[l.keys.index][i])
  }

  predicate OkBytes(h: Heap, b: RawBytes) {
    b.size > 0 ==> PtrIn(b.data, ByteData, |h.byteData|) && b.size <= |h.byteData[b.data.index]|
  }

  /** The union member that the format announces was written, and its pointers are in bounds. */
  predicate OkRaw(h: Heap, raw: Raw) {
    && (raw.format == FORMAT_FLAG ==> raw.u.AsFlag?)
    && (raw.format == FORMAT_INT64 ==> raw.u.AsInt?)
    && (raw.format == FORMAT_DOUBLE ==> raw.u.AsDouble?)
    && (raw.format == FORMAT_STRING ==> raw.u.AsPtr? && OkStr(h, raw.u.ptr))
    && (IsListFormat(raw.format) ==> Points(raw.u, Lists, |h.lists|) && OkValues(h, h.lists[raw.u.ptr.index]))
    && (raw.format == FORMAT_NODE_MAP ==> OkKeys(h, h.lists[raw.u.ptr.index]))
    && (raw.format == FORMAT_BYTE_ARRAY ==>
          Points(raw.u, ByteArrays, |h.byteArrays|) && OkBytes(h, h.byteArrays[raw.u.ptr.index]))
  }

  /** One more than the rank of the list a node refers to; 0 for a node without a list. */
  function Depth(rank: seq<nat>, raw: Raw): nat {
    if IsListFormat(raw.format) && Points(raw.u, Lists, |rank|) then rank[raw.u.ptr.index] + 1 else 0
  }

  predicate OkItem(h: Heap, rank: seq<nat>, i: nat, k: nat)
    requires i < |h.lists| && i < |rank|
  {
    k < Count(h.lists[i]) ==>
      && OkValues(h, h.lists[i])
      && OkRaw(h, h.nodeArrays[h.lists[i].values.index][k])
      && Depth(rank, h.nodeArrays[h.lists[i].values.index][k]) <= rank[i]
  }

  /**
   * Memory in which every node tree is finite: the lists can be ranked so that the items of
   * a list only refer to lists of lower rank.  This is what the safety comment of
   * `from_raw` asks for ("a valid, fully initialized mpv_node"), and no more: subtrees may
   * be shared, and memory that no count covers may hold anything.
   */
  ghost predicate Mem(h: Heap, rank: seq<nat>) {
    && |rank| == |h.lists|
    && forall i, k {:trigger OkItem(h, rank, i, k)} :: 0 <= i < |h.lists| && 0 <= k ==> OkItem(h, rank, i, k)
  }

  // ----- C strings -----

  /** The bytes before the first NUL, as `CStr::from_ptr` reads them. */
  function ReadCStr(buf: seq<Byte>): (s: seq<Byte>)
    requires 0 in buf
    ensures 0 !in s && |s| < |buf| && buf[..|s|] == s && buf[|s|] == 0
  {
    if buf[0] == 0 then [] else [buf[0]] + ReadCStr(buf[1..])
  }

  lemma {:induction false} ReadTerminated(s: seq<Byte>)
    requires 0 !in s
    ensures ReadCStr(s + [0]) == s
  {
    assert (s + [0])[..|s|] == s;
  }

  // ----- decoding -----

  /**
   * What `Node::from_raw` returns.  Its preconditions are the safety contract; that every
   * pointer it follows is in bounds is part of its definition being well formed.
   */
  function Decode(h: Heap, ghost rank: seq<nat>, raw: Raw): Node
    requires Mem(h, rank) && OkRaw(h, raw)
    decreases Depth(rank, raw), 0, 0
  {
    if raw.format == FORMAT_FLAG then Flag(raw.u.flag != 0)
    else if raw.format == FORMAT_INT64 then Int(raw.u.int64)
    else if raw.format == FORMAT_DOUBLE then Double(raw.u.bits)
    else if raw.format == FORMAT_STRING then Str(ReadCStr(h.strings[raw.u.ptr.index]))
    else if raw.format == FORMAT_NODE_ARRAY then
      var i := raw.u.ptr.index;
      Array(DecodeItems(h, rank, i, Count(h.lists[i])))
    else if raw.format == FORMAT_NODE_MAP then
      var i := raw.u.ptr.index;
      Map(DecodeEntries(h, rank, i, Count(h.lists[i])))
    else if raw.format == FORMAT_BYTE_ARRAY then
      var b := h.byteArrays[raw.u.ptr.index];
      Bytes(if b.size == 0 then [] else h.byteData[b.data.index][..b.size])
    else Empty
  }

  function Item(h: Heap, ghost rank: seq<nat>, i: nat, k: nat): Raw
    requires Mem(h, rank) && i < |h.lists| && k < Count(h.lists[i])
    ensures OkRaw(h, Item(h, rank, i, k)) && Depth(rank, Item(h, rank, i, k)) <= rank[i]
  {
    assert OkItem(h, rank, i, k);
    h.nodeArrays[h.lists[i].values.index][k]
  }

  /** The first n items of list i. */
  function DecodeItems(h: Heap, ghost rank: seq<nat>, i: nat, n: nat): (items: seq<Node>)
    requires Mem(h, rank) && i < |h.lists| && n <= Count(h.lists[i])
    ensures |items| == n
    decreases rank[i], 1, n
  {
    if n == 0 then []
    else DecodeItems(h, rank, i, n - 1) + [Decode(h, rank, Item(h, rank, i, n - 1))]
  }

  /** The first n entries of list i, read as a map. */
  function DecodeEntries(h: Heap, ghost rank: seq<nat>, i: nat, n: nat): (entries: seq<Entry>)
    requires Mem(h, rank) && i < |h.lists| && OkKeys(h, h.lists[i]) && n <= Count(h.lists[i])
    ensures |entries| == n
    decreases rank[i], 1, n
  {
    if n == 0 then []
    else
      var key := h.keyArrays[h.lists[i].keys.index][n - 1];
      DecodeEntries(h, rank, i, n - 1)
      + [Entry(ReadCStr(h.strings[key.index]), Decode(h, rank, Item(h, rank, i, n - 1)))]
  }

  // ----- encoding -----

  /** `len as c_int`: the one value of that type that is congruent to the length. */
  function Wrap32(n: nat): (r: CInt)
    ensures (n - r) % 0x1_0000_0000 == 0
  {
    (n + 0x8000_0000) % 0x1_0000_0000 - 0x8000_0000
  }

  datatype Pairs = Pairs(keys: seq<Ptr>, values: seq<Raw>)

  /** `CString::new(s)`, pushed to `strings`. */
  function PushString(h: Heap, s: seq<Byte>): (Heap, Result<Ptr, Error>) {
    if 0 in s then (h, Err(InteriorNul))
    else (h.(strings := h.strings + [s + [0]]), Ok(At(Strings, |h.strings|)))
  }

  /** The values slice, then the list that points to it. */
  function PushArray(h: Heap, values: seq<Raw>): (Heap, Raw) {
    var list := RawList(Wrap32(|values|), At(NodeArrays, |h.nodeArrays|), Null);
    (h.(nodeArrays := h.nodeArrays + [values], lists := h.lists + [list]),
     Raw(AsPtr(At(Lists, |h.lists|)), FORMAT_NODE_ARRAY))
  }

  /** The values slice, the keys slice, then the list that points to both. */
  function PushMap(h: Heap, p: Pairs): (Heap, Raw) {
    var list := RawList(Wrap32(|p.values|), At(NodeArrays, |h.nodeArrays|), At(KeyArrays, |h.keyArrays|));
    (h.(nodeArrays := h.nodeArrays + [p.values], keyArrays := h.keyArrays + [p.keys], lists := h.lists + [list]),
     Raw(AsPtr(At(Lists, |h.lists|)), FORMAT_NODE_MAP))
  }

  /** The data, then the byte array that points to it. */
  function PushBytes(h: Heap, data: seq<Byte>): (Heap, Raw) {
    (h.(byteData := h.byteData + [data],
        byteArrays := h.byteArrays + [RawBytes(At(ByteData, |h.byteData|), |data|)]),
     Raw(AsPtr(At(ByteArrays, |h.byteArrays|)), FORMAT_BYTE_ARRAY))
  }

  /** What `NodeStorage::build` does to the storage, and what it returns. */
  function Build(h: Heap, node: Node): (Heap, Result<Raw, Error>)
    decreases node, 0
  {
    match node
    case Empty => (h, Ok(Raw(AsInt(0), FORMAT_NONE)))
    case Flag(v) => (h, Ok(Raw(AsFlag(if v then 1 else 0), FORMAT_FLAG)))
    case Int(v) => (h, Ok(Raw(AsInt(v), FORMAT_INT64)))
    case Double(v) => (h, Ok(Raw(AsDouble(v), FORMAT_DOUBLE)))
    case Str(s) =>
      var (h1, p) := PushString(h, s);
      if p.Err? then (h1, Err(p.error)) else (h1, Ok(Raw(AsPtr(p.value), FORMAT_STRING)))
    case Array(items) =>
      var (h1, r) := BuildItems(h, items, |items|);
      if r.Err? then (h1, Err(r.error))
      else
        var (h2, raw) := PushArray(h1, r.value);
        (h2, Ok(raw))
    case Map(entries) =>
      var (h1, r) := BuildEntries(h, entries, |entries|);
      if r.Err? then (h1, Err(r.error))
      else
        var (h2, raw) := PushMap(h1, r.value);
        (h2, Ok(raw))
    case Bytes(data) =>
      var (h1, raw) := PushBytes(h, data);
      (h1, Ok(raw))
  }

  /** The first n items, in order; the first failure ends the loop. */
  function BuildItems(h: Heap, items: seq<Node>, n: nat): (r: (Heap, Result<seq<Raw>, Error>))
    requires n <= |items|
    ensures r.1.Ok? ==> |r.1.value| == n
    decreases items, n
  {
    if n == 0 then (h, Ok([]))
    else
      var (h1, before) := BuildItems(h, items, n - 1);
      if before.Err? then (h1, before)
      else
        var (h2, last) := Build(h1, items[n - 1]);
        if last.Err? then (h2, Err(last.error)) else (h2, Ok(before.value + [last.value]))
  }

  /** The first n entries, each key before its value. */
  function BuildEntries(h: Heap, entries: seq<Entry>, n: nat): (r: (Heap, Result<Pairs, Error>))
    requires n <= |entries|
    ensures r.1.Ok? ==> |r.1.value.keys| == n && |r.1.value.values| == n
    decreases entries, n
  {
    if n == 0 then (h, Ok(Pairs([], [])))
    else
      var (h1, before) := BuildEntries(h, entries, n - 1);
      if before.Err? then (h1, before)
      else
        var (h2, key) := PushString(h1, entries[n - 1].key);
        if key.Err? then (h2, Err(key.error))
        else
          var (h3, last) := Build(h2, entries[n - 1].value);
          if last.Err? then (h3, Err(last.error))
          else (h3, Ok(Pairs(before.value.keys + [key.value], before.value.values + [last.value])))
  }
}
