/**
 * Decoding of libmpv events (rsmpv/src/event.rs).
 *
 * `FromRaw` is the decoder as one function of the event storage; EventReads has the same
 * decode as the sequence of reads that it really is.
 */
module Events {
  import opened Common
  import opened NodeModel

  // ----- libmpv's event storage -----

  /** What a property event's data pointer refers to, by the member last written. */
  datatype Cell = CStr(str: Ptr) | CFlag(flag: CInt) | CInt64(int64: Int64) | CDouble(bits: Bits64) | CNode(raw: Raw)

  /** `data`: what the event's data pointer refers to. */
  datatype EventData =
    | NoData
    | LogData(prefix: Ptr, level: Ptr, text: Ptr, logLevel: CInt)
    | PropertyRecord(name: Ptr, format: int, cell: Option<Cell>)
    | CommandData(result: Raw)
    | StartData(entryId: Int64)
    | EndData(reason: CInt, error: CInt, entry: Int64, insert: Int64, insertCount: CInt)
    | MessageData(numArgs: CInt, args: seq<Ptr>)
    | HookData(hook: Ptr, hookId: nat)

  /** The event and the memory it points into; `rank` witnesses that its nodes are finite. */
  datatype RawEvent = RawEvent(id: CInt, error: CInt, userdata: nat, data: EventData, mem: Heap, rank: seq<nat>)

  const EVENT_NONE := 0
  const EVENT_SHUTDOWN := 1
  const EVENT_LOG_MESSAGE := 2
  const EVENT_GET_PROPERTY_REPLY := 3
  const EVENT_SET_PROPERTY_REPLY := 4
  const EVENT_COMMAND_REPLY := 5
  const EVENT_START_FILE := 6
  const EVENT_END_FILE := 7
  const EVENT_FILE_LOADED := 8
  const EVENT_CLIENT_MESSAGE := 16
  const EVENT_VIDEO_RECONFIG := 17
  const EVENT_AUDIO_RECONFIG := 18
  const EVENT_SEEK := 20
  const EVENT_PLAYBACK_RESTART := 21
  const EVENT_PROPERTY_CHANGE := 22
  const EVENT_QUEUE_OVERFLOW := 24
  const EVENT_HOOK := 25

  const FORMAT_OSD_STRING := 2
  const FORMAT_NODE := 6

  ghost predicate OkText(h: Heap, p: Ptr) {
    p.Null? || OkStr(h, p)
  }

  ghost predicate OkCell(h: Heap, format: int, c: Cell) {
    && (format == FORMAT_STRING || format == FORMAT_OSD_STRING ==> c.CStr?)
    && (format == FORMAT_FLAG ==> c.CFlag?)
    && (format == FORMAT_INT64 ==> c.CInt64?)
    && (format == FORMAT_DOUBLE ==> c.CDouble?)
    && (format == FORMAT_NODE ==> c.CNode?)
    && (c.CStr? ==> OkText(h, c.str))
    && (c.CNode? ==> OkRaw(h, c.raw))
  }

  ghost predicate OkData(h: Heap, d: EventData) {
    match d
    case LogData(prefix, level, text, _) => OkText(h, prefix) && OkText(h, level) && OkText(h, text)
    case PropertyRecord(name, format, cell) => OkText(h, name) && (cell.Some? ==> OkCell(h, format, cell.value))
    case CommandData(raw) => OkRaw(h, raw)
    case MessageData(n, args) => n <= |args| && forall k :: 0 <= k < |args| ==> OkText(h, args[k])
    case HookData(name, _) => OkText(h, name)
    case _ => true
  }

  /** The data that libmpv documents for each event id. */
  predicate DataFits(id: int, error: int, d: EventData) {
    && (id == EVENT_LOG_MESSAGE ==> d.LogData?)
    && (id == EVENT_GET_PROPERTY_REPLY && error >= 0 ==> d.PropertyRecord?)
    && (id == EVENT_PROPERTY_CHANGE ==> d.PropertyRecord?)
    && (id == EVENT_COMMAND_REPLY && error >= 0 ==> d.CommandData?)
    && (id == EVENT_START_FILE ==> d.StartData? || d.NoData?)
    && (id == EVENT_END_FILE ==> d.EndData?)
    && (id == EVENT_CLIENT_MESSAGE ==> d.MessageData?)
    && (id == EVENT_HOOK ==> d.HookData?)
  }

  const NONE_EVENT := RawEvent(EVENT_NONE, 0, 0, NoData, EMPTY_HEAP, [])

  /** An event as libmpv leaves it in its storage. */
  type Stored = e: RawEvent | Mem(e.mem, e.rank) && OkData(e.mem, e.data) && DataFits(e.id, e.error, e.data)
    witness RawEvent(0, 0, 0, NoData, Heap([], [], [], [], [], []), [])

  // ----- owned events -----

  datatype PropertyData =
    | PropNone
    | PropString(s: seq<Byte>)
    | PropOsdString(s: seq<Byte>)
    | PropFlag(flag: bool)
    | PropInt64(i: Int64)
    | PropDouble(d: Bits64)
    | PropNode(node: Node)

  datatype EndFileReason = Eof | Stop | Quit | EndError | Redirect | UnknownReason(code: int)

  datatype Property = Property(name: seq<Byte>, data: PropertyData)

  datatype Event =
    | Shutdown
    | LogMessage(prefix: seq<Byte>, level: seq<Byte>, text: seq<Byte>, logLevel: int)
    | GetPropertyReply(userdata: nat, property: Result<Property, Error>)
    | SetPropertyReply(userdata: nat, status: Result<(), Error>)
    | CommandReply(userdata: nat, node: Result<Node, Error>)
    | StartFile(playlistEntryId: int)
    | EndFile(reason: EndFileReason, error: Option<Error>, entryId: int, insertId: int, insertCount: int)
    | FileLoaded
    | ClientMessage(args: seq<seq<Byte>>)
    | VideoReconfig
    | AudioReconfig
    | Seek
    | PlaybackRestart
    | PropertyChange(userdata: nat, change: Property)
    | QueueOverflow
    | Hook(userdata: nat, name: seq<Byte>, hookId: nat)
    | UnknownEvent(code: int)

  // ----- the decoder as one function -----

  function Lossy(h: Heap, p: Ptr): seq<Byte>
    requires OkText(h, p)
  {
    if p.Null? then [] else ReadCStr(h.strings[p.index])
  }

  function PropertyDataOf(e: Stored): PropertyData
    requires e.data.PropertyRecord?
  {
    var f := e.data.format;
    if e.data.cell.None? then PropNone
    else
      var c := e.data.cell.value;
      if f == FORMAT_STRING then PropString(Lossy(e.mem, c.str))
      else if f == FORMAT_OSD_STRING then PropOsdString(Lossy(e.mem, c.str))
      else if f == FORMAT_FLAG then PropFlag(c.flag != 0)
      else if f == FORMAT_INT64 then PropInt64(c.int64)
      else if f == FORMAT_DOUBLE then PropDouble(c.bits)
      else if f == FORMAT_NODE then PropNode(Decode(e.mem, e.rank, c.raw))
      else PropNone
  }

  function ReasonOf(code: int): EndFileReason {
    if code == 0 then Eof else if code == 2 then Stop else if code == 3 then Quit
    else if code == 4 then EndError else if code == 5 then Redirect else UnknownReason(code)
  }

  function LossyArgs(e: Stored, n: nat): (r: seq<seq<Byte>>)
    requires e.data.MessageData? && n <= |e.data.args|
    ensures |r| == n
  {
    if n == 0 then [] else LossyArgs(e, n - 1) + [Lossy(e.mem, e.data.args[n - 1])]
  }

  function Max0(n: int): nat {
    if n > 0 then n else 0
  }

  /** `Event::from_raw`; `v108` is the cached answer of has_api_1_108. */
  function FromRaw(e: Stored, v108: bool): Option<Event> {
    if e.id == EVENT_NONE then None
    else Some(
      if e.id == EVENT_SHUTDOWN then Shutdown
      else if e.id == EVENT_LOG_MESSAGE then
        LogMessage(Lossy(e.mem, e.data.prefix), Lossy(e.mem, e.data.level), Lossy(e.mem, e.data.text), e.data.logLevel)
      else if e.id == EVENT_GET_PROPERTY_REPLY then
        GetPropertyReply(e.userdata,
                         if e.error < 0 then Err(FromStatus(e.error))
                         else Ok(Property(Lossy(e.mem, e.data.name), PropertyDataOf(e))))
      else if e.id == EVENT_SET_PROPERTY_REPLY then
        SetPropertyReply(e.userdata, if e.error < 0 then Err(FromStatus(e.error)) else Ok(()))
      else if e.id == EVENT_COMMAND_REPLY then
        CommandReply(e.userdata,
                     if e.error < 0 then Err(FromStatus(e.error)) else Ok(Decode(e.mem, e.rank, e.data.result)))
      else if e.id == EVENT_START_FILE then StartFile(if e.data.NoData? then 0 else e.data.entryId)
      else if e.id == EVENT_END_FILE then
        EndFile(ReasonOf(e.data.reason), if e.data.error < 0 then Some(FromStatus(e.data.error)) else None,
                if v108 then e.data.entry else 0, if v108 then e.data.insert else 0,
                if v108 then e.data.insertCount else 0)
      else if e.id == EVENT_FILE_LOADED then FileLoaded
      else if e.id == EVENT_CLIENT_MESSAGE then ClientMessage(LossyArgs(e, Max0(e.data.numArgs)))
      else if e.id == EVENT_VIDEO_RECONFIG then VideoReconfig
      else if e.id == EVENT_AUDIO_RECONFIG then AudioReconfig
      else if e.id == EVENT_SEEK then Seek
      else if e.id == EVENT_PLAYBACK_RESTART then PlaybackRestart
      else if e.id == EVENT_PROPERTY_CHANGE then
        PropertyChange(e.userdata, Property(Lossy(e.mem, e.data.name), PropertyDataOf(e)))
      else if e.id == EVENT_QUEUE_OVERFLOW then QueueOverflow
      else if e.id == EVENT_HOOK then Hook(e.userdata, Lossy(e.mem, e.data.hook), e.data.hookId)
      else UnknownEvent(e.id))
  }
}
