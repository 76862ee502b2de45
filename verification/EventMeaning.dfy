/**
 * Which owned event a raw event denotes, written down without the decoder: with the numbers
 * of libmpv's client.h, and by what the memory the event points into holds.
 */
module EventMeaning {
  import opened Common
  import opened NodeModel
  import opened NodeMeaning
  import opened Events

  /** A null pointer is an empty string. */
  predicate NullableTextIs(h: Heap, p: Ptr, s: seq<Byte>) {
    if p.Null? then s == [] else TextIs(h, p, s)
  }

  predicate ErrorIs(code: int, e: Error) {
    if code == -4 then e == InvalidParameter else e == Status(code)
  }

  predicate ReasonIs(code: int, r: EndFileReason) {
    match r
    case Eof => code == 0
    case Stop => code == 2
    case Quit => code == 3
    case EndError => code == 4
    case Redirect => code == 5
    case UnknownReason(c) => c == code && code !in {0, 2, 3, 4, 5}
  }

  /** The value of a property, by the format announced. */
  ghost predicate DataIs(h: Heap, format: int, cell: Option<Cell>, d: PropertyData) {
    match d
    case PropNone => cell.None? || format !in {1, 2, 3, 4, 5, 6}
    case PropString(s) => cell.Some? && format == 1 && cell.value.CStr? && NullableTextIs(h, cell.value.str, s)
    case PropOsdString(s) => cell.Some? && format == 2 && cell.value.CStr? && NullableTextIs(h, cell.value.str, s)
    case PropFlag(v) => cell.Some? && format == 3 && cell.value.CFlag? && (v <==> cell.value.flag != 0)
    case PropInt64(n) => cell == Some(CInt64(n)) && format == 4
    case PropDouble(b) => cell == Some(CDouble(b)) && format == 5
    case PropNode(n) => cell.Some? && format == 6 && cell.value.CNode? && NodeIs(h, cell.value.raw, n)
  }

  ghost predicate PropertyIs(e: RawEvent, p: Property) {
    && e.data.PropertyRecord? && NullableTextIs(e.mem, e.data.name, p.name)
    && DataIs(e.mem, e.data.format, e.data.cell, p.data)
  }

  predicate Failed<T>(e: RawEvent, r: Result<T, Error>) {
    e.error < 0 && r.Err? && ErrorIs(e.error, r.error)
  }

  ghost predicate EventIs(e: RawEvent, v108: bool, event: Event) {
    match event
    case Shutdown => e.id == 1
    case LogMessage(prefix, level, text, n) =>
      && e.id == 2 && e.data.LogData? && n == e.data.logLevel
      && NullableTextIs(e.mem, e.data.prefix, prefix) && NullableTextIs(e.mem, e.data.level, level)
      && NullableTextIs(e.mem, e.data.text, text)
    case GetPropertyReply(u, r) =>
      e.id == 3 && u == e.userdata && (Failed(e, r) || (e.error >= 0 && r.Ok? && PropertyIs(e, r.value)))
    case SetPropertyReply(u, r) => e.id == 4 && u == e.userdata && (Failed(e, r) || (e.error >= 0 && r.Ok?))
    case CommandReply(u, r) =>
      && e.id == 5 && u == e.userdata
      && (Failed(e, r)
          || (e.error >= 0 && r.Ok? && e.data.CommandData? && NodeIs(e.mem, e.data.result, r.value)))
    case StartFile(n) => e.id == 6 && n == if e.data.StartData? then e.data.entryId else 0
    case EndFile(reason, error, entry, insert, count) =>
      && e.id == 7 && e.data.EndData? && ReasonIs(e.data.reason, reason)
      && (if e.data.error < 0 then error.Some? && ErrorIs(e.data.error, error.value) else error.None?)
      && entry == (if v108 then e.data.entry else 0)
      && insert == (if v108 then e.data.insert else 0)
      && count == (if v108 then e.data.insertCount else 0)
    case FileLoaded => e.id == 8
    case ClientMessage(args) => e.id == 16 && MessageIs(e, args)
    case VideoReconfig => e.id == 17
    case AudioReconfig => e.id == 18
    case Seek => e.id == 20
    case PlaybackRestart => e.id == 21
    case PropertyChange(u, p) => e.id == 22 && u == e.userdata && PropertyIs(e, p)
    case QueueOverflow => e.id == 24
    case Hook(u, name, id) =>
      && e.id == 25 && u == e.userdata && e.data.HookData? && id == e.data.hookId
      && NullableTextIs(e.mem, e.data.hook, name)
    case UnknownEvent(c) => c == e.id && e.id !in {0, 1, 2, 3, 4, 5, 6, 7, 8, 16, 17, 18, 20, 21, 22, 24, 25}
  }

  /** The arguments in order, none if their number is negative. */
  predicate MessageIs(e: RawEvent, args: seq<seq<Byte>>) {
    && e.data.MessageData? && |args| == (if e.data.numArgs < 0 then 0 else e.data.numArgs) && |args| <= |e.data.args|
    && forall k :: 0 <= k < |args| ==> NullableTextIs(e.mem, e.data.args[k], args[k])
  }

  /** What decoding returns: None for the NONE event, else the event denoted. */
  ghost predicate Denotes(e: RawEvent, v108: bool, r: Option<Event>) {
    if r.None? then e.id == 0 else EventIs(e, v108, r.value)
  }

  // ----- the decoder returns it -----

  lemma LossyIsRight(h: Heap, p: Ptr)
    requires OkText(h, p)
    ensures NullableTextIs(h, p, Lossy(h, p))
  {
    if p.At? { TextRead(h, p); }
  }

  lemma {:induction false} ArgsAreRight(e: Stored, n: nat)
    requires e.data.MessageData? && n <= |e.data.args|
    ensures forall k :: 0 <= k < n ==> NullableTextIs(e.mem, e.data.args[k], LossyArgs(e, n)[k])
  {
    if n > 0 {
      ArgsAreRight(e, n - 1);
      LossyIsRight(e.mem, e.data.args[n - 1]);
    }
  }

  lemma MessageIsRight(e: Stored)
    requires e.data.MessageData?
    ensures MessageIs(e, LossyArgs(e, Max0(e.data.numArgs)))
  {
    ArgsAreRight(e, Max0(e.data.numArgs));
  }

  lemma DataIsRight(e: Stored)
    requires e.data.PropertyRecord?
    ensures DataIs(e.mem, e.data.format, e.data.cell, PropertyDataOf(e))
  {
    if e.data.cell.Some? {
      var c := e.data.cell.value;
      if e.data.format == FORMAT_NODE {
        DecodeIsRight(e.mem, e.rank, c.raw);
      } else if e.data.format == FORMAT_STRING || e.data.format == FORMAT_OSD_STRING {
        LossyIsRight(e.mem, c.str);
      }
    }
  }

  lemma PropertyIsRight(e: Stored)
    requires e.data.PropertyRecord?
    ensures PropertyIs(e, Property(Lossy(e.mem, e.data.name), PropertyDataOf(e)))
  {
    LossyIsRight(e.mem, e.data.name);
    DataIsRight(e);
  }

  /** Every event libmpv leaves in its storage decodes to what it denotes. */
  lemma FromRawIsRight(e: Stored, v108: bool)
    ensures Denotes(e, v108, FromRaw(e, v108))
  {
    hide DataIs, PropertyDataOf, NodeIs, Decode, MessageIs, LossyArgs, Lossy, PropertyIs;
    match e.data
    case LogData(prefix, level, text, _) =>
      LossyIsRight(e.mem, prefix);
      LossyIsRight(e.mem, level);
      LossyIsRight(e.mem, text);
    case PropertyRecord(_, _, _) => PropertyIsRight(e);
    case CommandData(raw) => DecodeIsRight(e.mem, e.rank, raw);
    case MessageData(_, _) => MessageIsRight(e);
    case HookData(name, _) => LossyIsRight(e.mem, name);
    case _ =>
  }

  // ----- and there is only one -----

  lemma OneNullableText(h: Heap, p: Ptr, s: seq<Byte>, t: seq<Byte>)
    requires NullableTextIs(h, p, s) && NullableTextIs(h, p, t)
    ensures s == t
  {
    if p.At? { OneText(h, p, s, t); }
  }

  lemma OneProperty(e: RawEvent, p: Property, q: Property)
    requires PropertyIs(e, p) && PropertyIs(e, q)
    ensures p == q
  {
    OneNullableText(e.mem, e.data.name, p.name, q.name);
    if e.data.cell.Some? {
      var c := e.data.cell.value;
      match p.data {
        case PropString(s) => OneNullableText(e.mem, c.str, s, q.data.s);
        case PropOsdString(s) => OneNullableText(e.mem, c.str, s, q.data.s);
        case PropNode(n) => OneMeaning(e.mem, c.raw, n, q.data.node);
        case _ =>
      }
    }
  }

  lemma OneMessage(e: RawEvent, a: seq<seq<Byte>>, b: seq<seq<Byte>>)
    requires MessageIs(e, a) && MessageIs(e, b)
    ensures a == b
  {
    forall k | 0 <= k < |a| ensures a[k] == b[k] { OneNullableText(e.mem, e.data.args[k], a[k], b[k]); }
  }

  /** A raw event denotes at most one event, so the relation leaves the decoder no choice. */
  lemma OneEvent(e: RawEvent, v108: bool, x: Event, y: Event)
    requires EventIs(e, v108, x) && EventIs(e, v108, y)
    ensures x == y
  {
    hide DataIs, PropertyIs, NodeIs, MessageIs, NullableTextIs;
    match x
    case LogMessage(prefix, level, text, _) =>
      OneNullableText(e.mem, e.data.prefix, prefix, y.prefix);
      OneNullableText(e.mem, e.data.level, level, y.level);
      OneNullableText(e.mem, e.data.text, text, y.text);
    case GetPropertyReply(_, r) => if r.Ok? { OneProperty(e, r.value, y.property.value); }
    case CommandReply(_, r) => if r.Ok? { OneMeaning(e.mem, e.data.result, r.value, y.node.value); }
    case ClientMessage(args) => OneMessage(e, args, y.args);
    case PropertyChange(_, p) => OneProperty(e, p, y.change);
    case Hook(_, name, _) => OneNullableText(e.mem, e.data.hook, name, y.name);
    case SetPropertyReply(_, r) => if r.Ok? { assert r.value == y.status.value == (); }
    case EndFile(reason, _, _, _, _) => assert reason == y.reason;
    case _ =>
  }
}
