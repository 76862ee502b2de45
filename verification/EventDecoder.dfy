/** `Event::from_raw` as a sequence of reads, one branch after the other (rsmpv/src/event.rs). */
module EventDecoder {
  import opened Common
  import opened NodeModel
  import opened Events
  import opened EventMeaning
  import opened EventReads

  // ----- the decoder -----

  function NumFrom(q: Req, got: seq<Reply>): (o: Out<int>)
    ensures o.Val? ==> |o.rest| < |got|
  {
    if got == [] then Need(q) else Val(NumberOf(got[0]), got[1..])
  }

  /** A string that a null pointer leaves empty. */
  function TextFrom(p: Ptr, got: seq<Reply>): Out<seq<Byte>> {
    if p.Null? then Val([], got) else StrFrom(p, 0, got)
  }

  function TextAt(q: Req, got: seq<Reply>): Out<seq<Byte>> {
    if got == [] then Need(q) else TextFrom(PtrOf(got[0]), got[1..])
  }

  function LogFrom(got: seq<Reply>): Out<Event> {
    var prefix := TextAt(Field(0), got);
    if prefix.Need? then Need(prefix.req)
    else
      var level := TextAt(Field(1), prefix.rest);
      if level.Need? then Need(level.req)
      else
        var text := TextAt(Field(2), level.rest);
        if text.Need? then Need(text.req)
        else
          var n := NumFrom(Field(3), text.rest);
          if n.Need? then Need(n.req) else Val(LogMessage(prefix.v, level.v, text.v, n.v), n.rest)
  }

  /** The value a property's data pointer refers to, read as its format says. */
  function CellFrom(format: int, cell: Option<Cell>, got: seq<Reply>): Out<PropertyData> {
    var c := if cell.Some? then cell.value else CInt64(0);
    if format == FORMAT_STRING || format == FORMAT_OSD_STRING then
      var o := TextFrom(if c.CStr? then c.str else Null, got);
      if o.Need? then Need(o.req)
      else Val(if format == FORMAT_STRING then PropString(o.v) else PropOsdString(o.v), o.rest)
    else if format == FORMAT_FLAG then Val(PropFlag(c.CFlag? && c.flag != 0), got)
    else if format == FORMAT_INT64 then Val(PropInt64(if c.CInt64? then c.int64 else 0), got)
    else if format == FORMAT_DOUBLE then Val(PropDouble(if c.CDouble? then c.bits else 0), got)
    else
      var o := NodeFrom(if c.CNode? then c.raw else RawOf(Garbage), got);
      if o.Need? then Need(o.req) else Val(PropNode(o.v), o.rest)
  }

  predicate HasCell(format: int) {
    format == FORMAT_STRING || format == FORMAT_OSD_STRING || format == FORMAT_FLAG
    || format == FORMAT_INT64 || format == FORMAT_DOUBLE || format == FORMAT_NODE
  }

  /** property_data: the null check, the format, the data. */
  function DataFieldFrom(got: seq<Reply>): Out<PropertyData> {
    var present := NumFrom(Field(2), got);
    if present.Need? then Need(present.req)
    else if present.v == 0 then Val(PropNone, present.rest)
    else
      var format := NumFrom(Field(1), present.rest);
      if format.Need? then Need(format.req)
      else if !HasCell(format.v) then Val(PropNone, format.rest)
      else if format.rest == [] then Need(DataCell)
      else CellFrom(format.v, CellOf(format.rest[0]), format.rest[1..])
  }

  function PropertyFrom(got: seq<Reply>): Out<Property> {
    var name := TextAt(Field(0), got);
    if name.Need? then Need(name.req)
    else
      var data := DataFieldFrom(name.rest);
      if data.Need? then Need(data.req) else Val(Property(name.v, data.v), data.rest)
  }

  /** The playlist fields exist only since client API 1.108. */
  function PlaylistFrom(v108: bool, got: seq<Reply>): Out<(int, int, int)> {
    if !v108 then Val((0, 0, 0), got)
    else
      var entry := NumFrom(Field(2), got);
      if entry.Need? then Need(entry.req)
      else
        var insert := NumFrom(Field(3), entry.rest);
        if insert.Need? then Need(insert.req)
        else
          var count := NumFrom(Field(4), insert.rest);
          if count.Need? then Need(count.req) else Val((entry.v, insert.v, count.v), count.rest)
  }

  /** A negative error is read a second time, to convert it. */
  function EndErrorFrom(got: seq<Reply>): Out<Option<Error>> {
    var first := NumFrom(Field(1), got);
    if first.Need? then Need(first.req)
    else if first.v >= 0 then Val(None, first.rest)
    else
      var again := NumFrom(Field(1), first.rest);
      if again.Need? then Need(again.req) else Val(Some(FromStatus(again.v)), again.rest)
  }

  function EndFrom(v108: bool, got: seq<Reply>): Out<Event> {
    var reason := NumFrom(Field(0), got);
    if reason.Need? then Need(reason.req)
    else
      var error := EndErrorFrom(reason.rest);
      if error.Need? then Need(error.req)
      else
        var ids := PlaylistFrom(v108, error.rest);
        if ids.Need? then Need(ids.req)
        else Val(EndFile(ReasonOf(reason.v), error.v, ids.v.0, ids.v.1, ids.v.2), ids.rest)
  }

  /** The first n arguments of a client message. */
  function ArgsFrom(n: nat, got: seq<Reply>): Out<seq<seq<Byte>>>
    decreases n
  {
    if n == 0 then Val([], got)
    else
      var o := ArgsFrom(n - 1, got);
      if o.Need? then o
      else
        var last := TextAt(Arg(n - 1), o.rest);
        if last.Need? then Need(last.req) else Val(o.v + [last.v], last.rest)
  }

  function MessageFrom(got: seq<Reply>): Out<Event> {
    var n := NumFrom(Field(0), got);
    if n.Need? then Need(n.req)
    else
      var args := ArgsFrom(Max0(n.v), n.rest);
      if args.Need? then Need(args.req) else Val(ClientMessage(args.v), args.rest)
  }

  function HookFrom(userdata: nat, got: seq<Reply>): Out<Event> {
    var name := TextAt(Field(0), got);
    if name.Need? then Need(name.req)
    else
      var id := NumFrom(Field(1), name.rest);
      if id.Need? then Need(id.req) else Val(Hook(userdata, name.v, Max0(id.v)), id.rest)
  }

  function CommandFrom(userdata: nat, got: seq<Reply>): Out<Event> {
    if got == [] then Need(Field(0))
    else
      var o := NodeFrom(RawOf(got[0]), got[1..]);
      if o.Need? then Need(o.req) else Val(CommandReply(userdata, Ok(o.v)), o.rest)
  }

  predicate IsReply(id: int) {
    id == EVENT_GET_PROPERTY_REPLY || id == EVENT_SET_PROPERTY_REPLY || id == EVENT_COMMAND_REPLY
  }

  /** The replies to asynchronous requests, after the userdata: the error, then the result. */
  function ReplyFrom(id: int, userdata: nat, got: seq<Reply>): Out<Event> {
    var error := NumFrom(ErrorCode, got);
    if error.Need? then Need(error.req)
    else if id == EVENT_SET_PROPERTY_REPLY then
      Val(SetPropertyReply(userdata, if error.v < 0 then Err(FromStatus(error.v)) else Ok(())), error.rest)
    else if id == EVENT_COMMAND_REPLY then
      if error.v < 0 then Val(CommandReply(userdata, Err(FromStatus(error.v))), error.rest)
      else CommandFrom(userdata, error.rest)
    else if error.v < 0 then Val(GetPropertyReply(userdata, Err(FromStatus(error.v))), error.rest)
    else
      var property := PropertyFrom(error.rest);
      if property.Need? then Need(property.req) else Val(GetPropertyReply(userdata, Ok(property.v)), property.rest)
  }

  /** The events that carry their userdata. */
  function ForUserFrom(id: int, got: seq<Reply>): Out<Event> {
    var u := NumFrom(UserData, got);
    if u.Need? then Need(u.req)
    else if IsReply(id) then ReplyFrom(id, Max0(u.v), u.rest)
    else if id == EVENT_HOOK then HookFrom(Max0(u.v), u.rest)
    else
      var property := PropertyFrom(u.rest);
      if property.Need? then Need(property.req) else Val(PropertyChange(Max0(u.v), property.v), property.rest)
  }

  predicate ForUser(id: int) {
    IsReply(id) || id == EVENT_HOOK || id == EVENT_PROPERTY_CHANGE
  }

  /** The events that carry nothing. */
  function Plain(id: int): Event {
    if id == EVENT_SHUTDOWN then Shutdown
    else if id == EVENT_FILE_LOADED then FileLoaded
    else if id == EVENT_VIDEO_RECONFIG then VideoReconfig
    else if id == EVENT_AUDIO_RECONFIG then AudioReconfig
    else if id == EVENT_SEEK then Seek
    else if id == EVENT_PLAYBACK_RESTART then PlaybackRestart
    else if id == EVENT_QUEUE_OVERFLOW then QueueOverflow
    else UnknownEvent(id)
  }

  function StartFrom(got: seq<Reply>): Out<Event> {
    var n := NumFrom(Field(0), got);
    if n.Need? then Need(n.req) else Val(StartFile(n.v), n.rest)
  }

  /** What comes after the event id. */
  function BodyFrom(v108: bool, id: int, got: seq<Reply>): Out<Event> {
    if ForUser(id) then ForUserFrom(id, got)
    else if id == EVENT_LOG_MESSAGE then LogFrom(got)
    else if id == EVENT_START_FILE then StartFrom(got)
    else if id == EVENT_END_FILE then EndFrom(v108, got)
    else if id == EVENT_CLIENT_MESSAGE then MessageFrom(got)
    else Val(Plain(id), got)
  }

  function EventFrom(v108: bool, got: seq<Reply>): Out<Option<Event>> {
    var id := NumFrom(Id, got);
    if id.Need? then Need(id.req)
    else if id.v == EVENT_NONE then Val(None, id.rest)
    else
      var body := BodyFrom(v108, id.v, id.rest);
      if body.Need? then Need(body.req) else Val(Some(body.v), body.rest)
  }

  // ----- the trace of an event in a storage that does not change -----

  function TextTrace(h: Heap, p: Ptr): seq<Reply>
    requires OkText(h, p)
  {
    [PtrIs(p)] + if p.Null? then [] else StringTrace(h, p)
  }

  function CellTrace(e: Stored): seq<Reply>
    requires e.data.PropertyRecord? && e.data.cell.Some?
  {
    var c := e.data.cell.value;
    if e.data.format == FORMAT_STRING || e.data.format == FORMAT_OSD_STRING then
      if c.str.Null? then [] else StringTrace(e.mem, c.str)
    else if e.data.format == FORMAT_NODE then NodeTrace(e.mem, e.rank, c.raw)
    else []
  }

  function DataFieldTrace(e: Stored): seq<Reply>
    requires e.data.PropertyRecord?
  {
    if e.data.cell.None? then [NumberIs(0)]
    else
      [NumberIs(1)] + ([NumberIs(e.data.format)]
      + if HasCell(e.data.format) then [CellIs(e.data.cell)] + CellTrace(e) else [])
  }

  function PropertyTrace(e: Stored): seq<Reply>
    requires e.data.PropertyRecord?
  {
    TextTrace(e.mem, e.data.name) + DataFieldTrace(e)
  }

  function ArgsTrace(e: Stored, n: nat): seq<Reply>
    requires e.data.MessageData? && n <= |e.data.args|
  {
    if n == 0 then [] else ArgsTrace(e, n - 1) + TextTrace(e.mem, e.data.args[n - 1])
  }

  function EndErrorTrace(error: int): seq<Reply> {
    [NumberIs(error)] + if error < 0 then [NumberIs(error)] else []
  }

  function PlaylistTrace(e: Stored, v108: bool): seq<Reply>
    requires e.data.EndData?
  {
    if v108 then [NumberIs(e.data.entry)] + ([NumberIs(e.data.insert)] + [NumberIs(e.data.insertCount)]) else []
  }

  function ReplyTrace(e: Stored): seq<Reply>
    requires IsReply(e.id)
  {
    [NumberIs(e.error)]
    + if e.error < 0 || e.id == EVENT_SET_PROPERTY_REPLY then []
      else if e.id == EVENT_COMMAND_REPLY then [RawIs(e.data.result)] + NodeTrace(e.mem, e.rank, e.data.result)
      else PropertyTrace(e)
  }

  function ForUserTrace(e: Stored): seq<Reply>
    requires ForUser(e.id)
  {
    [NumberIs(e.userdata)]
    + if IsReply(e.id) then ReplyTrace(e)
      else if e.id == EVENT_HOOK then TextTrace(e.mem, e.data.hook) + [NumberIs(e.data.hookId)]
      else PropertyTrace(e)
  }

  function LogTrace(e: Stored): seq<Reply>
    requires e.data.LogData?
  {
    TextTrace(e.mem, e.data.prefix)
    + (TextTrace(e.mem, e.data.level) + (TextTrace(e.mem, e.data.text) + [NumberIs(e.data.logLevel)]))
  }

  function BodyTrace(e: Stored, v108: bool): seq<Reply> {
    if ForUser(e.id) then ForUserTrace(e)
    else if e.id == EVENT_LOG_MESSAGE then LogTrace(e)
    else if e.id == EVENT_START_FILE then [NumberIs(if e.data.NoData? then 0 else e.data.entryId)]
    else if e.id == EVENT_END_FILE then
      [NumberIs(e.data.reason)] + (EndErrorTrace(e.data.error) + PlaylistTrace(e, v108))
    else if e.id == EVENT_CLIENT_MESSAGE then [NumberIs(e.data.numArgs)] + ArgsTrace(e, Max0(e.data.numArgs))
    else []
  }

  function EventTrace(e: Stored, v108: bool): seq<Reply> {
    [NumberIs(e.id)] + if e.id == EVENT_NONE then [] else BodyTrace(e, v108)
  }

  // ----- the decoder follows the trace -----

  lemma NumTracks(e: RawEvent, q: Req, n: int, got: seq<Reply>)
    requires Answer(e, q) == NumberIs(n) && Along(got, [NumberIs(n)])
    ensures Tracks(e, NumFrom(q, got), n, got, [NumberIs(n)])
  {
  }

  lemma TextTracks(e: RawEvent, q: Req, p: Ptr, got: seq<Reply>)
    requires OkText(e.mem, p) && Answer(e, q) == PtrIs(p) && Along(got, TextTrace(e.mem, p))
    ensures Tracks(e, TextAt(q, got), Lossy(e.mem, p), got, TextTrace(e.mem, p))
  {
    if p.At? {
      AlongBoth(got, [PtrIs(p)], StringTrace(e.mem, p));
      if got != [] { StringTracks(e, p, got[1..]); }
    }
  }

  lemma LogTracks(e: Stored, got: seq<Reply>)
    requires e.data.LogData? && Along(got, LogTrace(e))
    ensures Tracks(e, LogFrom(got),
                   LogMessage(Lossy(e.mem, e.data.prefix), Lossy(e.mem, e.data.level), Lossy(e.mem, e.data.text),
                              e.data.logLevel),
                   got, LogTrace(e))
  {
    var a := TextTrace(e.mem, e.data.prefix);
    var b := TextTrace(e.mem, e.data.level);
    var c := TextTrace(e.mem, e.data.text);
    var d := [NumberIs(e.data.logLevel)];
    hide TextTrace, TextAt, NumFrom, Along;
    AlongBoth(got, a, b + (c + d));
    TextTracks(e, Field(0), e.data.prefix, got);
    if a <= got {
      var rest := got[|a|..];
      AlongBoth(rest, b, c + d);
      TextTracks(e, Field(1), e.data.level, rest);
      if b <= rest {
        var rest2 := rest[|b|..];
        AlongBoth(rest2, c, d);
        TextTracks(e, Field(2), e.data.text, rest2);
        if c <= rest2 { NumTracks(e, Field(3), e.data.logLevel, rest2[|c|..]); }
      }
    }
  }

  lemma CellTracks(e: Stored, got: seq<Reply>)
    requires e.data.PropertyRecord? && e.data.cell.Some? && HasCell(e.data.format) && Along(got, CellTrace(e))
    ensures Tracks(e, CellFrom(e.data.format, e.data.cell, got), PropertyDataOf(e), got, CellTrace(e))
  {
    var c := e.data.cell.value;
    if e.data.format == FORMAT_STRING || e.data.format == FORMAT_OSD_STRING {
      if c.str.At? { StringTracks(e, c.str, got); }
    } else if e.data.format == FORMAT_NODE {
      NodeTracks(e, e.rank, c.raw, got);
    }
  }

  lemma DataFieldTracks(e: Stored, got: seq<Reply>)
    requires e.data.PropertyRecord? && Along(got, DataFieldTrace(e))
    ensures Tracks(e, DataFieldFrom(got), PropertyDataOf(e), got, DataFieldTrace(e))
  {
    if e.data.cell.Some? {
      var tail := if HasCell(e.data.format) then [CellIs(e.data.cell)] + CellTrace(e) else [];
      AlongBoth(got, [NumberIs(1)], [NumberIs(e.data.format)] + tail);
      if got != [] {
        AlongBoth(got[1..], [NumberIs(e.data.format)], tail);
        if |got| > 1 && HasCell(e.data.format) {
          var rest := got[1..][1..];
          AlongBoth(rest, [CellIs(e.data.cell)], CellTrace(e));
          if rest != [] { CellTracks(e, rest[1..]); }
        }
      }
    }
  }

  lemma PropertyTracks(e: Stored, got: seq<Reply>)
    requires e.data.PropertyRecord? && Along(got, PropertyTrace(e))
    ensures Tracks(e, PropertyFrom(got), Property(Lossy(e.mem, e.data.name), PropertyDataOf(e)), got, PropertyTrace(e))
  {
    hide TextTrace, TextAt, DataFieldTrace, DataFieldFrom, Along;
    var a := TextTrace(e.mem, e.data.name);
    AlongBoth(got, a, DataFieldTrace(e));
    TextTracks(e, Field(0), e.data.name, got);
    if a <= got { DataFieldTracks(e, got[|a|..]); }
  }

  lemma {:induction false} ArgsTracks(e: Stored, n: nat, got: seq<Reply>)
    requires e.data.MessageData? && n <= |e.data.args| && Along(got, ArgsTrace(e, n))
    ensures Tracks(e, ArgsFrom(n, got), LossyArgs(e, n), got, ArgsTrace(e, n))
  {
    hide TextTrace, TextAt, Along;
    if n > 0 {
      var before := ArgsTrace(e, n - 1);
      AlongBoth(got, before, TextTrace(e.mem, e.data.args[n - 1]));
      ArgsTracks(e, n - 1, got);
      if before <= got { TextTracks(e, Arg(n - 1), e.data.args[n - 1], got[|before|..]); }
    }
  }

  lemma MessageTracks(e: Stored, got: seq<Reply>)
    requires e.data.MessageData? && Along(got, [NumberIs(e.data.numArgs)] + ArgsTrace(e, Max0(e.data.numArgs)))
    ensures Tracks(e, MessageFrom(got), ClientMessage(LossyArgs(e, Max0(e.data.numArgs))), got,
                   [NumberIs(e.data.numArgs)] + ArgsTrace(e, Max0(e.data.numArgs)))
  {
    AlongBoth(got, [NumberIs(e.data.numArgs)], ArgsTrace(e, Max0(e.data.numArgs)));
    if got != [] { ArgsTracks(e, Max0(e.data.numArgs), got[1..]); }
  }

  function EndErrorOf(error: int): Option<Error> {
    if error < 0 then Some(FromStatus(error)) else None
  }

  lemma EndErrorTracks(e: Stored, got: seq<Reply>)
    requires e.data.EndData? && Along(got, EndErrorTrace(e.data.error))
    ensures Tracks(e, EndErrorFrom(got), EndErrorOf(e.data.error), got, EndErrorTrace(e.data.error))
  {
    if e.data.error < 0 {
      AlongBoth(got, [NumberIs(e.data.error)], [NumberIs(e.data.error)]);
    }
  }

  function PlaylistOf(e: Stored, v108: bool): (int, int, int)
    requires e.data.EndData?
  {
    if v108 then (e.data.entry, e.data.insert, e.data.insertCount) else (0, 0, 0)
  }

  lemma PlaylistTracks(e: Stored, v108: bool, got: seq<Reply>)
    requires e.data.EndData? && Along(got, PlaylistTrace(e, v108))
    ensures Tracks(e, PlaylistFrom(v108, got), PlaylistOf(e, v108), got, PlaylistTrace(e, v108))
  {
    if v108 {
      AlongBoth(got, [NumberIs(e.data.entry)], [NumberIs(e.data.insert)] + [NumberIs(e.data.insertCount)]);
      if got != [] { AlongBoth(got[1..], [NumberIs(e.data.insert)], [NumberIs(e.data.insertCount)]); }
    }
  }

  lemma EndTracks(e: Stored, v108: bool, got: seq<Reply>)
    requires e.id == EVENT_END_FILE && Along(got, BodyTrace(e, v108))
    ensures Tracks(e, EndFrom(v108, got), FromRaw(e, v108).value, got, BodyTrace(e, v108))
  {
    var a := EndErrorTrace(e.data.error);
    var b := PlaylistTrace(e, v108);
    AlongBoth(got, [NumberIs(e.data.reason)], a + b);
    hide EndErrorTrace, PlaylistTrace, EndErrorFrom, PlaylistFrom;
    if got != [] {
      var rest := got[1..];
      AlongBoth(rest, a, b);
      EndErrorTracks(e, rest);
      if a <= rest { PlaylistTracks(e, v108, rest[|a|..]); }
    }
  }

  lemma CommandTracks(e: Stored, u: nat, got: seq<Reply>)
    requires e.data.CommandData? && Along(got, [RawIs(e.data.result)] + NodeTrace(e.mem, e.rank, e.data.result))
    ensures Tracks(e, CommandFrom(u, got), CommandReply(u, Ok(Decode(e.mem, e.rank, e.data.result))), got,
                   [RawIs(e.data.result)] + NodeTrace(e.mem, e.rank, e.data.result))
  {
    AlongBoth(got, [RawIs(e.data.result)], NodeTrace(e.mem, e.rank, e.data.result));
    if got != [] { NodeTracks(e, e.rank, e.data.result, got[1..]); }
  }

  lemma ReplyTracks(e: Stored, v108: bool, got: seq<Reply>)
    requires IsReply(e.id) && Along(got, ReplyTrace(e))
    ensures Tracks(e, ReplyFrom(e.id, e.userdata, got), FromRaw(e, v108).value, got, ReplyTrace(e))
  {
    var tail := ReplyTrace(e)[1..];
    AlongBoth(got, [NumberIs(e.error)], tail);
    if got != [] && e.error >= 0 {
      if e.id == EVENT_COMMAND_REPLY {
        CommandTracks(e, e.userdata, got[1..]);
      } else if e.id == EVENT_GET_PROPERTY_REPLY {
        PropertyTracks(e, got[1..]);
      }
    }
  }

  lemma HookTracks(e: Stored, got: seq<Reply>)
    requires e.data.HookData? && Along(got, TextTrace(e.mem, e.data.hook) + [NumberIs(e.data.hookId)])
    ensures Tracks(e, HookFrom(e.userdata, got), Hook(e.userdata, Lossy(e.mem, e.data.hook), e.data.hookId), got,
                   TextTrace(e.mem, e.data.hook) + [NumberIs(e.data.hookId)])
  {
    var a := TextTrace(e.mem, e.data.hook);
    AlongBoth(got, a, [NumberIs(e.data.hookId)]);
    TextTracks(e, Field(0), e.data.hook, got);
    hide TextTrace, TextAt;
    if a <= got { NumTracks(e, Field(1), e.data.hookId, got[|a|..]); }
  }

  lemma ForUserTracks(e: Stored, v108: bool, got: seq<Reply>)
    requires ForUser(e.id) && Along(got, ForUserTrace(e))
    ensures Tracks(e, ForUserFrom(e.id, got), FromRaw(e, v108).value, got, ForUserTrace(e))
  {
    hide ReplyTrace, ReplyFrom, PropertyTrace, PropertyFrom, HookFrom, TextTrace;
    var tail := if IsReply(e.id) then ReplyTrace(e)
                else if e.id == EVENT_HOOK then TextTrace(e.mem, e.data.hook) + [NumberIs(e.data.hookId)]
                else PropertyTrace(e);
    AlongBoth(got, [NumberIs(e.userdata)], tail);
    if got != [] {
      if IsReply(e.id) {
        ReplyTracks(e, v108, got[1..]);
      } else if e.id == EVENT_HOOK {
        HookTracks(e, got[1..]);
      } else {
        PropertyTracks(e, got[1..]);
      }
    }
  }

  lemma BodyTracks(e: Stored, v108: bool, got: seq<Reply>)
    requires e.id != EVENT_NONE && Along(got, BodyTrace(e, v108))
    ensures Tracks(e, BodyFrom(v108, e.id, got), FromRaw(e, v108).value, got, BodyTrace(e, v108))
  {
    hide ForUserTrace, ForUserFrom, LogTrace, LogFrom, EndFrom, MessageFrom;
    if ForUser(e.id) {
      ForUserTracks(e, v108, got);
    } else if e.id == EVENT_LOG_MESSAGE {
      LogTracks(e, got);
    } else if e.id == EVENT_END_FILE {
      EndTracks(e, v108, got);
    } else if e.id == EVENT_CLIENT_MESSAGE {
      MessageTracks(e, got);
    }
  }

  /** With the whole trace of an event as replies, the decoder returns what Events.FromRaw
      returns; with any beginning of it, it asks for the next reply of the trace. */
  lemma EventTracks(e: Stored, v108: bool, got: seq<Reply>)
    requires Along(got, EventTrace(e, v108))
    ensures Tracks(e, EventFrom(v108, got), FromRaw(e, v108), got, EventTrace(e, v108))
    ensures EventTrace(e, v108) <= got ==> Denotes(e, v108, EventFrom(v108, got).v)
  {
    hide BodyTrace, BodyFrom, Denotes;
    FromRawIsRight(e, v108);
    if e.id != EVENT_NONE {
      AlongBoth(got, [NumberIs(e.id)], BodyTrace(e, v108));
      if got != [] { BodyTracks(e, v108, got[1..]); }
    }
  }
}
