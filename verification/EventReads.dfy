/**
 * Decoding as the sequence of reads it really is (rsmpv/src/event.rs, node.rs): one read is
 * one number, one pointer, one byte of a string, or one fixed-size C struct, and each read
 * sees whatever is in memory at that moment.
 *
 * The decoder is a function of the replies it has had so far: it either asks for its next
 * read or has a value.  If the memory never changes, the replies are the trace of the event,
 * and the value is that of the decoder as one function, Events.FromRaw.
 */
module EventReads {
  import opened Common
  import opened NodeModel
  import opened Events
  import opened NodeMeaning

  // ----- reads -----

  datatype Req =
    | Id | UserData | ErrorCode           // the event struct
    | Field(k: nat)                       // of the struct the event's data points to
    | DataCell                            // what a property's data points to, if it is not null
    | Arg(k: nat)                         // an argument pointer of a client message
    | StrByte(p: Ptr, k: nat)
    | ListAt(p: Ptr) | ItemAt(p: Ptr, k: nat) | KeyAt(p: Ptr, k: nat)
    | BytesAt(p: Ptr) | DataByte(p: Ptr, k: nat)

  datatype Reply =
    | NumberIs(n: int) | PtrIs(p: Ptr) | CellIs(cell: Option<Cell>) | RawIs(raw: Raw)
    | ListIs(list: RawList) | BytesIs(bytes: RawBytes) | Garbage

  /** Field k of the struct that belongs to the event. */
  function FieldOf(d: EventData, k: nat): Reply {
    match d
    case LogData(prefix, level, text, n) =>
      if k == 0 then PtrIs(prefix) else if k == 1 then PtrIs(level) else if k == 2 then PtrIs(text) else NumberIs(n)
    case PropertyRecord(name, format, cell) =>
      if k == 0 then PtrIs(name) else if k == 1 then NumberIs(format) else NumberIs(Bit(cell.Some?))
    case CommandData(raw) => RawIs(raw)
    case StartData(id) => NumberIs(id)
    case NoData => NumberIs(0)
    case EndData(reason, error, entry, insert, count) =>
      NumberIs(if k == 0 then reason else if k == 1 then error else if k == 2 then entry
               else if k == 3 then insert else count)
    case MessageData(num, _) => NumberIs(num)
    case HookData(name, id) => if k == 0 then PtrIs(name) else NumberIs(id)
  }

  /** What a read returns while memory is that of e; a read out of bounds returns garbage. */
  function Answer(e: RawEvent, q: Req): Reply {
    match q
    case Id => NumberIs(e.id)
    case UserData => NumberIs(e.userdata)
    case ErrorCode => NumberIs(e.error)
    case Field(k) => FieldOf(e.data, k)
    case DataCell => if e.data.PropertyRecord? then CellIs(e.data.cell) else Garbage
    case Arg(k) => if e.data.MessageData? && k < |e.data.args| then PtrIs(e.data.args[k]) else Garbage
    case StrByte(p, k) =>
      if PtrIn(p, Strings, |e.mem.strings|) && k < |e.mem.strings[p.index]|
      then NumberIs(e.mem.strings[p.index][k]) else Garbage
    case ListAt(p) => if PtrIn(p, Lists, |e.mem.lists|) then ListIs(e.mem.lists[p.index]) else Garbage
    case ItemAt(p, k) =>
      if PtrIn(p, NodeArrays, |e.mem.nodeArrays|) && k < |e.mem.nodeArrays[p.index]|
      then RawIs(e.mem.nodeArrays[p.index][k]) else Garbage
    case KeyAt(p, k) =>
      if PtrIn(p, KeyArrays, |e.mem.keyArrays|) && k < |e.mem.keyArrays[p.index]|
      then PtrIs(e.mem.keyArrays[p.index][k]) else Garbage
    case BytesAt(p) =>
      if PtrIn(p, ByteArrays, |e.mem.byteArrays|) then BytesIs(e.mem.byteArrays[p.index]) else Garbage
    case DataByte(p, k) =>
      if PtrIn(p, ByteData, |e.mem.byteData|) && k < |e.mem.byteData[p.index]|
      then NumberIs(e.mem.byteData[p.index][k]) else Garbage
  }

  // What the decoder takes a reply for, whatever it is.

  function NumberOf(r: Reply): int { if r.NumberIs? then r.n else 0 }

  function ByteOf(r: Reply): Byte { if r.NumberIs? && 0 <= r.n < 0x100 then r.n else 0 }

  function PtrOf(r: Reply): Ptr { if r.PtrIs? then r.p else Null }

  function CellOf(r: Reply): Option<Cell> { if r.CellIs? then r.cell else None }

  function RawOf(r: Reply): Raw { if r.RawIs? then r.raw else Raw(AsInt(0), FORMAT_NONE) }

  function ListOf(r: Reply): RawList { if r.ListIs? then r.list else RawList(0, Null, Null) }

  function BytesOf(r: Reply): RawBytes { if r.BytesIs? then r.bytes else RawBytes(Null, 0) }

  function PointerOf(u: NodeModel.Value): Ptr { if u.AsPtr? then u.ptr else Null }

  // ----- the decoder -----

  /** The decoder's next read, or its value and the replies it did not need. */
  datatype Out<T> = Need(req: Req) | Val(v: T, rest: seq<Reply>)

  /** A C string from its byte k on. */
  function StrFrom(p: Ptr, k: nat, got: seq<Reply>): (o: Out<seq<Byte>>)
    ensures o.Val? ==> |o.rest| < |got|
    decreases |got|
  {
    if got == [] then Need(StrByte(p, k))
    else if ByteOf(got[0]) == 0 then Val([], got[1..])
    else
      var o := StrFrom(p, k + 1, got[1..]);
      if o.Need? then o else Val([ByteOf(got[0])] + o.v, o.rest)
  }

  /** The first n bytes of a byte array. */
  function DataFrom(p: Ptr, n: nat, got: seq<Reply>): (o: Out<seq<Byte>>)
    ensures o.Val? ==> |o.rest| <= |got|
    decreases n
  {
    if n == 0 then Val([], got)
    else
      var o := DataFrom(p, n - 1, got);
      if o.Need? then o
      else if o.rest == [] then Need(DataByte(p, n - 1))
      else Val(o.v + [ByteOf(o.rest[0])], o.rest[1..])
  }

  function NodeFrom(raw: Raw, got: seq<Reply>): (o: Out<Node>)
    ensures o.Val? ==> |o.rest| <= |got|
    decreases |got|, 0
  {
    var u := raw.u;
    if raw.format == FORMAT_FLAG then Val(Flag(u.AsFlag? && u.flag != 0), got)
    else if raw.format == FORMAT_INT64 then Val(Int(if u.AsInt? then u.int64 else 0), got)
    else if raw.format == FORMAT_DOUBLE then Val(Double(if u.AsDouble? then u.bits else 0), got)
    else if raw.format == FORMAT_STRING then
      var o := StrFrom(PointerOf(u), 0, got);
      if o.Need? then Need(o.req) else Val(Str(o.v), o.rest)
    else if raw.format == FORMAT_NODE_ARRAY then
      if got == [] then Need(ListAt(PointerOf(u)))
      else
        var o := ItemsFrom(ListOf(got[0]), Count(ListOf(got[0])), got[1..]);
        if o.Need? then Need(o.req) else Val(Array(o.v), o.rest)
    else if raw.format == FORMAT_NODE_MAP then
      if got == [] then Need(ListAt(PointerOf(u)))
      else
        var o := EntriesFrom(ListOf(got[0]), Count(ListOf(got[0])), got[1..]);
        if o.Need? then Need(o.req) else Val(Map(o.v), o.rest)
    else if raw.format == FORMAT_BYTE_ARRAY then
      if got == [] then Need(BytesAt(PointerOf(u)))
      else
        var o := DataFrom(BytesOf(got[0]).data, BytesOf(got[0]).size, got[1..]);
        if o.Need? then Need(o.req) else Val(Bytes(o.v), o.rest)
    else Val(Empty, got)
  }

  /** One item: its struct, then what that refers to. */
  function ItemFrom(values: Ptr, k: nat, got: seq<Reply>): (o: Out<Node>)
    ensures o.Val? ==> |o.rest| < |got|
    decreases |got|, 1
  {
    if got == [] then Need(ItemAt(values, k)) else NodeFrom(RawOf(got[0]), got[1..])
  }

  /** The first n items of a list. */
  function ItemsFrom(list: RawList, n: nat, got: seq<Reply>): (o: Out<seq<Node>>)
    ensures o.Val? ==> |o.rest| <= |got|
    decreases |got|, n + 2
  {
    if n == 0 then Val([], got)
    else
      var o := ItemsFrom(list, n - 1, got);
      if o.Need? then o
      else
        var last := ItemFrom(list.values, n - 1, o.rest);
        if last.Need? then Need(last.req) else Val(o.v + [last.v], last.rest)
  }

  /** One key: its pointer, then its bytes. */
  function KeyFrom(keys: Ptr, k: nat, got: seq<Reply>): (o: Out<seq<Byte>>)
    ensures o.Val? ==> |o.rest| < |got|
  {
    if got == [] then Need(KeyAt(keys, k)) else StrFrom(PtrOf(got[0]), 0, got[1..])
  }

  /** The first n entries of a map, each key before its value. */
  function EntriesFrom(list: RawList, n: nat, got: seq<Reply>): (o: Out<seq<Entry>>)
    ensures o.Val? ==> |o.rest| <= |got|
    decreases |got|, n + 2
  {
    if n == 0 then Val([], got)
    else
      var o := EntriesFrom(list, n - 1, got);
      if o.Need? then o
      else
        var key := KeyFrom(list.keys, n - 1, o.rest);
        if key.Need? then Need(key.req)
        else
          var last := ItemFrom(list.values, n - 1, key.rest);
          if last.Need? then Need(last.req) else Val(o.v + [Entry(key.v, last.v)], last.rest)
  }

  // ----- the trace of a node in memory that does not change -----

  function StrTrace(buf: seq<Byte>, k: nat): seq<Reply>
    requires k <= |buf| && 0 in buf[k..]
    decreases |buf| - k
  {
    if buf[k] == 0 then [NumberIs(0)]
    else
      assert buf[k..] == [buf[k]] + buf[k + 1..];
      [NumberIs(buf[k])] + StrTrace(buf, k + 1)
  }

  function DataTrace(buf: seq<Byte>, n: nat): seq<Reply>
    requires n <= |buf|
  {
    if n == 0 then [] else DataTrace(buf, n - 1) + [NumberIs(buf[n - 1])]
  }

  function StringTrace(h: Heap, p: Ptr): seq<Reply>
    requires OkStr(h, p)
  {
    var buf := h.strings[p.index];
    assert buf[0..] == buf;
    StrTrace(buf, 0)
  }

  function NodeTrace(h: Heap, ghost rank: seq<nat>, raw: Raw): seq<Reply>
    requires Mem(h, rank) && OkRaw(h, raw)
    decreases Depth(rank, raw), 0, 0
  {
    if raw.format == FORMAT_STRING then StringTrace(h, raw.u.ptr)
    else if raw.format == FORMAT_NODE_ARRAY then
      var i := raw.u.ptr.index;
      [ListIs(h.lists[i])] + ItemsTrace(h, rank, i, Count(h.lists[i]))
    else if raw.format == FORMAT_NODE_MAP then
      var i := raw.u.ptr.index;
      [ListIs(h.lists[i])] + EntriesTrace(h, rank, i, Count(h.lists[i]))
    else if raw.format == FORMAT_BYTE_ARRAY then
      var b := h.byteArrays[raw.u.ptr.index];
      [BytesIs(b)] + (if b.size == 0 then [] else DataTrace(h.byteData[b.data.index], b.size))
    else []
  }

  function ItemsTrace(h: Heap, ghost rank: seq<nat>, i: nat, n: nat): seq<Reply>
    requires Mem(h, rank) && i < |h.lists| && n <= Count(h.lists[i])
    decreases rank[i], 1, n
  {
    if n == 0 then []
    else ItemsTrace(h, rank, i, n - 1) + ItemTrace(h, rank, i, n - 1)
  }

  function ItemTrace(h: Heap, ghost rank: seq<nat>, i: nat, k: nat): seq<Reply>
    requires Mem(h, rank) && i < |h.lists| && k < Count(h.lists[i])
    decreases rank[i], 1, k
  {
    var item := Item(h, rank, i, k);
    [RawIs(item)] + NodeTrace(h, rank, item)
  }

  function KeyTrace(h: Heap, p: Ptr): seq<Reply>
    requires OkStr(h, p)
  {
    [PtrIs(p)] + StringTrace(h, p)
  }

  function EntriesTrace(h: Heap, ghost rank: seq<nat>, i: nat, n: nat): seq<Reply>
    requires Mem(h, rank) && i < |h.lists| && OkKeys(h, h.lists[i]) && n <= Count(h.lists[i])
    decreases rank[i], 1, n
  {
    if n == 0 then []
    else
      EntriesTrace(h, rank, i, n - 1)
      + (KeyTrace(h, h.keyArrays[h.lists[i].keys.index][n - 1]) + ItemTrace(h, rank, i, n - 1))
  }

  // ----- the decoder follows the trace -----

  /** got is a beginning of the trace, or goes on where the trace ends. */
  predicate Along(got: seq<Reply>, tr: seq<Reply>) {
    got <= tr || tr <= got
  }

  /** With all of the trace, the decoder has its value; before that, it asks for the next reply of the trace. */
  ghost predicate Tracks<T(!new)>(e: RawEvent, o: Out<T>, v: T, got: seq<Reply>, tr: seq<Reply>) {
    if tr <= got then o == Val(v, got[|tr|..])
    else o.Need? && |got| < |tr| && Answer(e, o.req) == tr[|got|]
  }

  lemma TracksNext<T(!new)>(e: RawEvent, o: Out<T>, v: T, got: seq<Reply>, tr: seq<Reply>)
    requires Tracks(e, o, v, got, tr) && got <= tr
    ensures o.Need? ==> got + [Answer(e, o.req)] <= tr
    ensures o.Val? ==> o.v == v && got == tr
  {
    hide Answer;
    if o.Need? { assert tr[..|got| + 1] == tr[..|got|] + [tr[|got|]]; }
  }

  /** Two stretches of a trace, one after the other. */
  lemma AlongBoth(got: seq<Reply>, a: seq<Reply>, b: seq<Reply>)
    requires Along(got, a + b)
    ensures Along(got, a)
    ensures a <= got ==> Along(got[|a|..], b)
    ensures a <= got ==> (a + b <= got <==> b <= got[|a|..])
    ensures a <= got && b <= got[|a|..] ==> got[|a|..][|b|..] == got[|a + b|..]
    ensures a <= got && |got| < |a + b| ==> (a + b)[|got|] == b[|got[|a|..]|]
    ensures !(a <= got) ==> |got| < |a| && (a + b)[|got|] == a[|got|] && !(a + b <= got)
  {
    if a <= got {
      assert got == a + got[|a|..];
      assert got[..|a| + |got[|a|..]|] == got;
    }
  }

  lemma {:induction false} StrTracks(e: RawEvent, p: Ptr, k: nat, got: seq<Reply>)
    requires PtrIn(p, Strings, |e.mem.strings|) && k <= |e.mem.strings[p.index]| && 0 in e.mem.strings[p.index][k..]
    requires Along(got, StrTrace(e.mem.strings[p.index], k))
    ensures var buf := e.mem.strings[p.index];
            Tracks(e, StrFrom(p, k, got), ReadCStr(buf[k..]), got, StrTrace(buf, k))
    decreases |e.mem.strings[p.index]| - k
  {
    var buf := e.mem.strings[p.index];
    assert buf[k..] == [buf[k]] + buf[k + 1..];
    if buf[k] != 0 {
      AlongBoth(got, [NumberIs(buf[k])], StrTrace(buf, k + 1));
      if got != [] {
        StrTracks(e, p, k + 1, got[1..]);
      }
    }
  }

  lemma {:induction false} DataTracks(e: RawEvent, p: Ptr, n: nat, got: seq<Reply>)
    requires PtrIn(p, ByteData, |e.mem.byteData|) && n <= |e.mem.byteData[p.index]|
    requires Along(got, DataTrace(e.mem.byteData[p.index], n))
    ensures Tracks(e, DataFrom(p, n, got), e.mem.byteData[p.index][..n], got, DataTrace(e.mem.byteData[p.index], n))
    decreases n
  {
    var buf := e.mem.byteData[p.index];
    if n > 0 {
      AlongBoth(got, DataTrace(buf, n - 1), [NumberIs(buf[n - 1])]);
      DataTracks(e, p, n - 1, got);
      assert buf[..n] == buf[..n - 1] + [buf[n - 1]];
    }
  }

  lemma StringTracks(e: RawEvent, p: Ptr, got: seq<Reply>)
    requires OkStr(e.mem, p) && Along(got, StringTrace(e.mem, p))
    ensures Tracks(e, StrFrom(p, 0, got), ReadCStr(e.mem.strings[p.index]), got, StringTrace(e.mem, p))
  {
    var buf := e.mem.strings[p.index];
    assert buf[0..] == buf;
    StrTracks(e, p, 0, got);
  }

  lemma {:induction false} NodeTracks(e: RawEvent, rank: seq<nat>, raw: Raw, got: seq<Reply>)
    requires Mem(e.mem, rank) && OkRaw(e.mem, raw) && Along(got, NodeTrace(e.mem, rank, raw))
    ensures Tracks(e, NodeFrom(raw, got), Decode(e.mem, rank, raw), got, NodeTrace(e.mem, rank, raw))
    ensures NodeTrace(e.mem, rank, raw) <= got ==> NodeIs(e.mem, raw, NodeFrom(raw, got).v)
    decreases Depth(rank, raw), 0, 0
  {
    DecodeIsRight(e.mem, rank, raw);
    if raw.format == FORMAT_STRING {
      StringTracks(e, raw.u.ptr, got);
    } else if raw.format == FORMAT_NODE_ARRAY {
      var i := raw.u.ptr.index;
      AlongBoth(got, [ListIs(e.mem.lists[i])], ItemsTrace(e.mem, rank, i, Count(e.mem.lists[i])));
      if got != [] { ItemsTracks(e, rank, i, Count(e.mem.lists[i]), got[1..]); }
    } else if raw.format == FORMAT_NODE_MAP {
      var i := raw.u.ptr.index;
      AlongBoth(got, [ListIs(e.mem.lists[i])], EntriesTrace(e.mem, rank, i, Count(e.mem.lists[i])));
      if got != [] { EntriesTracks(e, rank, i, Count(e.mem.lists[i]), got[1..]); }
    } else if raw.format == FORMAT_BYTE_ARRAY {
      var b := e.mem.byteArrays[raw.u.ptr.index];
      if b.size > 0 {
        AlongBoth(got, [BytesIs(b)], DataTrace(e.mem.byteData[b.data.index], b.size));
        if got != [] { DataTracks(e, b.data, b.size, got[1..]); }
      }
    }
  }

  lemma {:induction false} ItemTracks(e: RawEvent, rank: seq<nat>, i: nat, k: nat, got: seq<Reply>)
    requires Mem(e.mem, rank) && i < |e.mem.lists| && k < Count(e.mem.lists[i])
    requires Along(got, ItemTrace(e.mem, rank, i, k))
    ensures Tracks(e, ItemFrom(e.mem.lists[i].values, k, got), Decode(e.mem, rank, Item(e.mem, rank, i, k)), got,
                   ItemTrace(e.mem, rank, i, k))
    decreases rank[i], 1, k
  {
    assert OkItem(e.mem, rank, i, k);
    var item := Item(e.mem, rank, i, k);
    AlongBoth(got, [RawIs(item)], NodeTrace(e.mem, rank, item));
    if got != [] { NodeTracks(e, rank, item, got[1..]); }
  }

  lemma {:induction false} ItemsTracks(e: RawEvent, rank: seq<nat>, i: nat, n: nat, got: seq<Reply>)
    requires Mem(e.mem, rank) && i < |e.mem.lists| && n <= Count(e.mem.lists[i])
    requires Along(got, ItemsTrace(e.mem, rank, i, n))
    ensures Tracks(e, ItemsFrom(e.mem.lists[i], n, got), DecodeItems(e.mem, rank, i, n), got,
                   ItemsTrace(e.mem, rank, i, n))
    decreases rank[i], 1, n
  {
    if n > 0 {
      var before := ItemsTrace(e.mem, rank, i, n - 1);
      AlongBoth(got, before, ItemTrace(e.mem, rank, i, n - 1));
      ItemsTracks(e, rank, i, n - 1, got);
      if before <= got { ItemTracks(e, rank, i, n - 1, got[|before|..]); }
    }
  }

  lemma KeyTracks(e: RawEvent, keys: Ptr, k: nat, got: seq<Reply>)
    requires PtrIn(keys, KeyArrays, |e.mem.keyArrays|) && k < |e.mem.keyArrays[keys.index]|
    requires OkStr(e.mem, e.mem.keyArrays[keys.index][k]) && Along(got, KeyTrace(e.mem, e.mem.keyArrays[keys.index][k]))
    ensures var key := e.mem.keyArrays[keys.index][k];
            Tracks(e, KeyFrom(keys, k, got), ReadCStr(e.mem.strings[key.index]), got, KeyTrace(e.mem, key))
  {
    var key := e.mem.keyArrays[keys.index][k];
    AlongBoth(got, [PtrIs(key)], StringTrace(e.mem, key));
    if got != [] { StringTracks(e, key, got[1..]); }
  }

  lemma {:induction false} EntriesTracks(e: RawEvent, rank: seq<nat>, i: nat, n: nat, got: seq<Reply>)
    requires Mem(e.mem, rank) && i < |e.mem.lists| && OkKeys(e.mem, e.mem.lists[i]) && n <= Count(e.mem.lists[i])
    requires Along(got, EntriesTrace(e.mem, rank, i, n))
    ensures Tracks(e, EntriesFrom(e.mem.lists[i], n, got), DecodeEntries(e.mem, rank, i, n), got,
                   EntriesTrace(e.mem, rank, i, n))
    decreases rank[i], 1, n
  {
    hide KeyTrace, KeyFrom, ItemTrace, ItemFrom, Along;
    if n > 0 {
      var list := e.mem.lists[i];
      var before := EntriesTrace(e.mem, rank, i, n - 1);
      var key := KeyTrace(e.mem, e.mem.keyArrays[list.keys.index][n - 1]);
      var item := ItemTrace(e.mem, rank, i, n - 1);
      AlongBoth(got, before, key + item);
      EntriesTracks(e, rank, i, n - 1, got);
      if before <= got {
        var rest := got[|before|..];
        AlongBoth(rest, key, item);
        KeyTracks(e, list.keys, n - 1, rest);
        if key <= rest { ItemTracks(e, rank, i, n - 1, rest[|key|..]); }
      }
    }
  }
}
