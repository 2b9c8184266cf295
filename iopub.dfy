/** The output side of the Jupyter messaging protocol as the sandboxes read
    it: IOPub messages, their classification into output dicts, the drain
    loop that runs until the kernel reports `idle` or the deadline passes,
    and the stamping of every output with the cell and session ids.

    The kernel is replaced by a finite sequence of polls. Each poll carries
    the clock reading the loop takes and the result of `get_iopub_msg`:
    a message, or `None` when the one-second wait raised `queue.Empty`. */
module Iopub {
  import opened Common
  import Ansi

  /** The fields of a message's `content` dict that the sandboxes read;
      `None` is an absent key. */
  datatype Content = Content(
    text: Option<string>,
    data: Option<map<string, string>>,
    traceback: Option<seq<string>>,
    executionState: Option<string>)

  /** `header.msg_type`: the five types the sandboxes look at, and any
      other (`execute_input`, `clear_output`, ...). */
  datatype MsgType = Stream | ExecuteResult | DisplayData | ErrorMsg | Status | OtherType

  /** An IOPub message: `parent_header.msg_id` (absent when `None`),
      `header.msg_type` and `content`. */
  datatype Msg = Msg(parentId: Option<string>, msgType: MsgType, content: Content)

  datatype Poll = Poll(clock: real, msg: Option<Msg>)

  /** The two output dicts: `{"type": "text", "text": ...}` and
      `{"type": "image_url", "image_url": {"url": ...}}`. */
  datatype Output = Text(text: string) | ImageUrl(url: string)

  /** An output dict after `cell_id` and `session_id` were added. */
  datatype Item = Item(output: Output, cellId: string, sessionId: string)

  /** What one message does to the loop. */
  datatype Action = Emit(out: Output) | Ignore | Finish

  /** Why a drain ended. `Exhausted` means the poll sequence ran out first
      (the real loop would keep polling); `Raised` is a `KeyError` that
      escapes the older sandbox's loop. */
  datatype Ending = Idle | TimedOut | Exhausted | Raised(key: string)

  datatype Drained = Drained(emitted: seq<Output>, ending: Ending)

  /** The RFC 2397 prefix `data:<mime>;base64,`. */
  function DataPrefix(mime: string): string
  {
    "data:" + mime + ";base64,"
  }

  /** `data:image/png;base64,` and `data:image/jpeg;base64,`. */
  const PngPrefix: string := DataPrefix("image/png")
  const JpegPrefix: string := DataPrefix("image/jpeg")

  /** The image URL built from a payload: the prefix is added unless the
      payload already starts with it. */
  function DataUrl(mime: string, payload: string): (url: string)
    ensures DataPrefix(mime) <= url
    ensures DataPrefix(mime) <= payload ==> url == payload
    ensures !(DataPrefix(mime) <= payload) ==> url == DataPrefix(mime) + payload
  {
    if DataPrefix(mime) <= payload then payload else DataPrefix(mime) + payload
  }

  /** Building the URL twice gives the same URL: never a double prefix. */
  lemma DataUrlIdempotent(mime: string, payload: string)
    ensures DataUrl(mime, DataUrl(mime, payload)) == DataUrl(mime, payload)
  {
  }

  function Lookup(d: map<string, string>, key: string, default: string): string
  {
    if key in d then d[key] else default
  }

  predicate IsIdleStatus(m: Msg)
  {
    m.msgType == Status && m.content.executionState == Some("idle")
  }

  function TimeoutNotice(timeout: int): string
  {
    "Execution timeout after " + IntToString(timeout) + " seconds"
  }

  /** The classification of a message whose parent id matched, in the
      sandbox of jupyter_async.py. Missing keys read as their defaults. */
  function Classify(m: Msg): (a: Action)
    ensures a.Finish? <==> IsIdleStatus(m)
    ensures a.Emit? && a.out.ImageUrl? ==>
      m.msgType == DisplayData && (PngPrefix <= a.out.url || JpegPrefix <= a.out.url)
    ensures m.msgType in {Stream, ExecuteResult, ErrorMsg} ==> a.Emit? && a.out.Text?
  {
    var c := m.content;
    if m.msgType == Stream then Emit(Text(c.text.GetOr("")))
    else if m.msgType == ExecuteResult then
      Emit(Text(Lookup(c.data.GetOr(map[]), "text/plain", "")))
    else if m.msgType == DisplayData then
      var d := c.data.GetOr(map[]);
      if "image/png" in d then Emit(ImageUrl(DataUrl("image/png", d["image/png"])))
      else if "image/jpeg" in d then Emit(ImageUrl(DataUrl("image/jpeg", d["image/jpeg"])))
      else if "text/plain" in d then Emit(Text(d["text/plain"]))
      else Ignore
    else if m.msgType == ErrorMsg then
      Emit(Text(Ansi.FormatTraceback(c.traceback.GetOr([]))))
    else if IsIdleStatus(m) then Finish
    else Ignore
  }

  /** A rich display payload: PNG wins over JPEG, which wins over plain
      text; a payload with none of the three yields nothing. */
  lemma DisplayPreference(m: Msg)
    requires m.msgType == DisplayData
    ensures var d := m.content.data.GetOr(map[]);
      && ("image/png" in d ==> Classify(m) == Emit(ImageUrl(DataUrl("image/png", d["image/png"]))))
      && ("image/png" !in d && "image/jpeg" in d ==>
            Classify(m) == Emit(ImageUrl(DataUrl("image/jpeg", d["image/jpeg"]))))
      && ("image/png" !in d && "image/jpeg" !in d && "text/plain" in d ==>
            Classify(m) == Emit(Text(d["text/plain"])))
      && ("image/png" !in d && "image/jpeg" !in d && "text/plain" !in d ==>
            Classify(m) == Ignore)
  {
  }

  /** The classification of jupyter.py: the same branches without JPEG,
      and indexing (`content['text']`, ...) where a missing key raises. */
  function LegacyClassify(m: Msg): (r: Result<Action, string>)
    ensures r.Success? && r.value.Finish? <==> IsIdleStatus(m)
    ensures r.Success? && r.value.Emit? && r.value.out.ImageUrl? ==> PngPrefix <= r.value.out.url
    ensures r.Failure? ==> m.msgType != OtherType
  {
    var c := m.content;
    if m.msgType == Stream then
      if c.text.None? then Failure("text") else Success(Emit(Text(c.text.value)))
    else if m.msgType == ExecuteResult then
      if c.data.None? then Failure("data")
      else Success(Emit(Text(Lookup(c.data.value, "text/plain", ""))))
    else if m.msgType == DisplayData then
      if c.data.None? then Failure("data")
      else
        var d := c.data.value;
        if "image/png" in d then Success(Emit(ImageUrl(DataUrl("image/png", d["image/png"]))))
        else if "text/plain" in d then Success(Emit(Text(d["text/plain"])))
        else Success(Ignore)
    else if m.msgType == ErrorMsg then
      if c.traceback.None? then Failure("traceback")
      else Success(Emit(Text(Ansi.FormatTraceback(c.traceback.value))))
    else if m.msgType == Status then
      if c.executionState.None? then Failure("execution_state")
      else if c.executionState.value == "idle" then Success(Finish)
      else Success(Ignore)
    else Success(Ignore)
  }

  /** A JPEG-only display payload is an image in the newer sandbox and
      nothing at all in the older one. */
  lemma JpegOnlyDiffers(m: Msg, payload: string)
    requires m.msgType == DisplayData && m.content.data == Some(map["image/jpeg" := payload])
    ensures Classify(m) == Emit(ImageUrl(DataUrl("image/jpeg", payload)))
    ensures LegacyClassify(m) == Success(Ignore)
  {
  }

  function Prepend(o: Output, d: Drained): Drained
  {
    Drained([o] + d.emitted, d.ending)
  }

  predicate Accepted(m: Msg, msgId: string)
  {
    m.parentId == Some(msgId)
  }

  /** The drain loop of `execute_code`, `aexecute_code` and
      `astream_execute_code`: the deadline is checked before every poll,
      an empty poll or a message for another request is skipped, and an
      accepted message is classified. */
  function Drain(polls: seq<Poll>, msgId: string, deadline: real): (d: Drained)
    ensures !d.ending.Raised?
    decreases |polls|
  {
    if polls == [] then Drained([], Exhausted)
    else if polls[0].clock > deadline then Drained([], TimedOut)
    else if polls[0].msg.None? || !Accepted(polls[0].msg.value, msgId) then
      Drain(polls[1..], msgId, deadline)
    else match Classify(polls[0].msg.value)
      case Finish => Drained([], Idle)
      case Ignore => Drain(polls[1..], msgId, deadline)
      case Emit(o) => Prepend(o, Drain(polls[1..], msgId, deadline))
  }

  /** The list the loop returns: the emitted outputs, then the timeout
      notice exactly when the deadline ended the loop. */
  function Outputs(d: Drained, timeout: int): (outs: seq<Output>)
    ensures d.ending == TimedOut ==> |outs| == |d.emitted| + 1 && outs[|outs| - 1] == Text(TimeoutNotice(timeout))
    ensures d.ending != TimedOut ==> outs == d.emitted
    ensures outs[..|d.emitted|] == d.emitted
  {
    d.emitted + (if d.ending == TimedOut then [Text(TimeoutNotice(timeout))] else [])
  }

  /** A poll that stops the loop: past the deadline, or the accepted `idle`. */
  predicate Halts(p: Poll, msgId: string, deadline: real)
  {
    p.clock > deadline || (p.msg.Some? && Accepted(p.msg.value, msgId) && IsIdleStatus(p.msg.value))
  }

  /** The outputs contributed by one poll that does not halt the loop. */
  function EmittedBy(p: Poll, msgId: string): seq<Output>
  {
    if p.msg.Some? && Accepted(p.msg.value, msgId) && Classify(p.msg.value).Emit?
    then [Classify(p.msg.value).out] else []
  }

  function EmittedByAll(polls: seq<Poll>, msgId: string): seq<Output>
  {
    if polls == [] then [] else EmittedBy(polls[0], msgId) + EmittedByAll(polls[1..], msgId)
  }

  /** Index of the first poll that halts the loop, or `|polls|`. */
  function HaltIndex(polls: seq<Poll>, msgId: string, deadline: real): (k: nat)
    ensures k <= |polls|
    ensures forall j :: 0 <= j < k ==> !Halts(polls[j], msgId, deadline)
    ensures k < |polls| ==> Halts(polls[k], msgId, deadline)
    decreases |polls|
  {
    if polls == [] || Halts(polls[0], msgId, deadline) then 0
    else 1 + HaltIndex(polls[1..], msgId, deadline)
  }

  /** A reference description of the drain: the loop consumes the polls up
      to the first one that halts it; the outputs are what the accepted
      messages before that poll emit, in arrival order; the ending is the
      timeout when the clock of the halting poll is past the deadline,
      `idle` otherwise, and exhaustion when no poll halts. */
  lemma {:induction false} DrainCharacterized(polls: seq<Poll>, msgId: string, deadline: real)
    ensures var d := Drain(polls, msgId, deadline);
      var k := HaltIndex(polls, msgId, deadline);
      && d.emitted == EmittedByAll(polls[..k], msgId)
      && (k == |polls| ==> d.ending == Exhausted)
      && (k < |polls| ==> d.ending == (if polls[k].clock > deadline then TimedOut else Idle))
    decreases |polls|
  {
    var k := HaltIndex(polls, msgId, deadline);
    if polls == [] || Halts(polls[0], msgId, deadline) {
      assert polls[..k] == [];
    } else {
      var rest := polls[1..];
      DrainCharacterized(rest, msgId, deadline);
      assert polls[..k][1..] == rest[..k - 1];
      assert polls[..k][0] == polls[0];
    }
  }

  /** Replaces every message addressed to another request by an empty poll. */
  function MaskForeign(polls: seq<Poll>, msgId: string): (r: seq<Poll>)
    ensures |r| == |polls|
  {
    if polls == [] then []
    else
      var p := polls[0];
      var q := if p.msg.Some? && !Accepted(p.msg.value, msgId) then Poll(p.clock, None) else p;
      [q] + MaskForeign(polls[1..], msgId)
  }

  /** Messages whose parent id differs from the submitted request's id
      contribute nothing: the drain of a trace equals the drain of the same
      trace with all of them blanked out. */
  lemma {:induction false} ForeignMessagesIgnored(polls: seq<Poll>, msgId: string, deadline: real)
    ensures Drain(MaskForeign(polls, msgId), msgId, deadline) == Drain(polls, msgId, deadline)
    decreases |polls|
  {
    if polls != [] {
      ForeignMessagesIgnored(polls[1..], msgId, deadline);
      assert MaskForeign(polls, msgId)[1..] == MaskForeign(polls[1..], msgId);
    }
  }

  /** An accepted `idle` that arrives before the clock passes the deadline
      ends the loop without a timeout notice. */
  lemma {:induction false} IdleBeforeDeadline(polls: seq<Poll>, msgId: string, deadline: real, i: nat)
    requires i < |polls|
    requires forall j :: 0 <= j <= i ==> polls[j].clock <= deadline
    requires polls[i].msg.Some? && Accepted(polls[i].msg.value, msgId) && IsIdleStatus(polls[i].msg.value)
    ensures Drain(polls, msgId, deadline).ending == Idle
    decreases i
  {
    if i > 0 && !(polls[0].msg.Some? && Accepted(polls[0].msg.value, msgId) && IsIdleStatus(polls[0].msg.value)) {
      IdleBeforeDeadline(polls[1..], msgId, deadline, i - 1);
    }
  }

  /** Streaming delivers, at every moment, a prefix of the final result:
      what a trace that has not finished yet produced stays at the front of
      what any continuation of it produces. */
  lemma {:induction false} DrainExtends(polls: seq<Poll>, more: seq<Poll>, msgId: string, deadline: real)
    requires Drain(polls, msgId, deadline).ending == Exhausted
    ensures Drain(polls, msgId, deadline).emitted <= Drain(polls + more, msgId, deadline).emitted
    decreases |polls|
  {
    if polls == [] {
    } else {
      assert (polls + more)[0] == polls[0];
      assert (polls + more)[1..] == polls[1..] + more;
      DrainExtends(polls[1..], more, msgId, deadline);
    }
  }

  /** The older loop: no parent-id filter, and the clock is consulted only
      after an empty poll, against the time measured after submission. */
  function LegacyDrain(polls: seq<Poll>, start: real, timeout: int): Drained
    decreases |polls|
  {
    if polls == [] then Drained([], Exhausted)
    else match polls[0].msg
      case None =>
        if polls[0].clock - start > timeout as real then Drained([], TimedOut)
        else LegacyDrain(polls[1..], start, timeout)
      case Some(m) =>
        match LegacyClassify(m)
        case Failure(key) => Drained([], Raised(key))
        case Success(Finish) => Drained([], Idle)
        case Success(Ignore) => LegacyDrain(polls[1..], start, timeout)
        case Success(Emit(o)) => Prepend(o, LegacyDrain(polls[1..], start, timeout))
  }

  /** While messages keep arriving, the older loop never times out, however
      late the clock: the check sits in the `Empty` handler only. */
  lemma {:induction false} LegacyTimeoutOnlyOnEmpty(polls: seq<Poll>, start: real, timeout: int)
    requires forall j :: 0 <= j < |polls| ==> polls[j].msg.Some?
    ensures LegacyDrain(polls, start, timeout).ending != TimedOut
    decreases |polls|
  {
    if polls != [] {
      LegacyTimeoutOnlyOnEmpty(polls[1..], start, timeout);
    }
  }

  /** An `idle` for some other request ends the older loop before the
      request's own output, which the newer loop still collects. */
  lemma LegacyStopsOnForeignIdle(msgId: string, other: string, out: string, now: real, limit: real)
    requires other != msgId && now <= limit
    ensures var idle := Content(None, None, None, Some("idle"));
      var polls := [ Poll(now, Some(Msg(Some(other), Status, idle))),
                     Poll(now, Some(Msg(Some(msgId), Stream, Content(Some(out), None, None, None)))),
                     Poll(now, Some(Msg(Some(msgId), Status, idle))) ];
      LegacyDrain(polls, now, 0) == Drained([], Idle) &&
      Drain(polls, msgId, limit) == Drained([Text(out)], Idle)
  {
    var idle := Content(None, None, None, Some("idle"));
    var polls := [ Poll(now, Some(Msg(Some(other), Status, idle))),
                   Poll(now, Some(Msg(Some(msgId), Stream, Content(Some(out), None, None, None)))),
                   Poll(now, Some(Msg(Some(msgId), Status, idle))) ];
    assert polls[1..][1..] == [polls[2]];
    assert Drain([polls[2]], msgId, limit) == Drained([], Idle);
  }

  /** The stamped list: each output keeps its content and gains the ids. */
  function Stamped(outs: seq<Output>, cellId: string, sessionId: string): (items: seq<Item>)
    ensures |items| == |outs|
    ensures forall i :: 0 <= i < |items| ==>
      items[i].output == outs[i] && items[i].cellId == cellId && items[i].sessionId == sessionId
  {
    if outs == [] then [] else [Item(outs[0], cellId, sessionId)] + Stamped(outs[1..], cellId, sessionId)
  }

  /** The drain loop as the sandbox runs it. */
  method CollectOutputs(polls: seq<Poll>, msgId: string, deadline: real, timeout: int)
    returns (outputs: seq<Output>, ending: Ending)
    ensures ending == Drain(polls, msgId, deadline).ending
    ensures outputs == Outputs(Drain(polls, msgId, deadline), timeout)
  {
    outputs := [];
    var i := 0;
    ending := Exhausted;
    while i < |polls|
      invariant 0 <= i <= |polls|
      invariant outputs + Drain(polls[i..], msgId, deadline).emitted == Drain(polls, msgId, deadline).emitted
      invariant Drain(polls[i..], msgId, deadline).ending == Drain(polls, msgId, deadline).ending
      decreases |polls| - i
    {
      var p := polls[i];
      assert polls[i..][1..] == polls[i + 1..];
      if p.clock > deadline {
        outputs := outputs + [Text(TimeoutNotice(timeout))];
        ending := TimedOut;
        return;
      }
      if p.msg.Some? && Accepted(p.msg.value, msgId) {
        var action := Classify(p.msg.value);
        if action.Finish? {
          ending := Idle;
          return;
        } else if action.Emit? {
          outputs := outputs + [action.out];
        }
      }
      i := i + 1;
    }
  }

  /** The older loop as jupyter.py runs it; a raised `KeyError` discards
      the outputs gathered so far. */
  method LegacyCollectOutputs(polls: seq<Poll>, start: real, timeout: int)
    returns (outputs: seq<Output>, ending: Ending)
    ensures ending == LegacyDrain(polls, start, timeout).ending
    ensures !ending.Raised? ==> outputs == Outputs(LegacyDrain(polls, start, timeout), timeout)
  {
    outputs := [];
    var i := 0;
    ending := Exhausted;
    while i < |polls|
      invariant 0 <= i <= |polls|
      invariant outputs + LegacyDrain(polls[i..], start, timeout).emitted == LegacyDrain(polls, start, timeout).emitted
      invariant LegacyDrain(polls[i..], start, timeout).ending == LegacyDrain(polls, start, timeout).ending
      decreases |polls| - i
    {
      var p := polls[i];
      assert polls[i..][1..] == polls[i + 1..];
      if p.msg.None? {
        if p.clock - start > timeout as real {
          outputs := outputs + [Text(TimeoutNotice(timeout))];
          ending := TimedOut;
          return;
        }
      } else {
        var r := LegacyClassify(p.msg.value);
        if r.Failure? {
          ending := Raised(r.error);
          return;
        } else if r.value.Finish? {
          ending := Idle;
          return;
        } else if r.value.Emit? {
          outputs := outputs + [r.value.out];
        }
      }
      i := i + 1;
    }
  }

  /** The stamping loop `for o in outputs: o["cell_id"] = ...`. */
  method StampOutputs(outputs: seq<Output>, cellId: string, sessionId: string)
    returns (items: seq<Item>)
    ensures items == Stamped(outputs, cellId, sessionId)
  {
    items := [];
    for i := 0 to |outputs|
      invariant items == Stamped(outputs[..i], cellId, sessionId)
    {
      StampedAppend(outputs[..i], outputs[i], cellId, sessionId);
      assert outputs[..i + 1] == outputs[..i] + [outputs[i]];
      items := items + [Item(outputs[i], cellId, sessionId)];
    }
    assert outputs[..|outputs|] == outputs;
  }

  lemma {:induction false} StampedAppend(outs: seq<Output>, o: Output, cellId: string, sessionId: string)
    ensures Stamped(outs + [o], cellId, sessionId) == Stamped(outs, cellId, sessionId) + [Item(o, cellId, sessionId)]
  {
    var a := Stamped(outs + [o], cellId, sessionId);
    var b := Stamped(outs, cellId, sessionId) + [Item(o, cellId, sessionId)];
    assert |a| == |b|;
    forall i | 0 <= i < |a| ensures a[i] == b[i] {
      if i < |outs| {
        assert (outs + [o])[i] == outs[i];
      }
    }
  }

  /** The streaming loop of `astream_execute_code`: every output is stamped
      and handed over (appended to `yielded`) as soon as it is classified. */
  method StreamOutputs(polls: seq<Poll>, msgId: string, deadline: real, timeout: int,
                       cellId: string, sessionId: string)
    returns (yielded: seq<Item>, ending: Ending)
    ensures ending == Drain(polls, msgId, deadline).ending
    ensures yielded == Stamped(Outputs(Drain(polls, msgId, deadline), timeout), cellId, sessionId)
  {
    yielded := [];
    ghost var produced: seq<Output> := [];
    var i := 0;
    ending := Exhausted;
    while i < |polls|
      invariant 0 <= i <= |polls|
      invariant yielded == Stamped(produced, cellId, sessionId)
      invariant produced + Drain(polls[i..], msgId, deadline).emitted == Drain(polls, msgId, deadline).emitted
      invariant Drain(polls[i..], msgId, deadline).ending == Drain(polls, msgId, deadline).ending
      decreases |polls| - i
    {
      var p := polls[i];
      assert polls[i..][1..] == polls[i + 1..];
      if p.clock > deadline {
        StampedAppend(produced, Text(TimeoutNotice(timeout)), cellId, sessionId);
        yielded := yielded + [Item(Text(TimeoutNotice(timeout)), cellId, sessionId)];
        produced := produced + [Text(TimeoutNotice(timeout))];
        ending := TimedOut;
        return;
      }
      if p.msg.Some? && Accepted(p.msg.value, msgId) {
        var action := Classify(p.msg.value);
        if action.Finish? {
          ending := Idle;
          return;
        } else if action.Emit? {
          StampedAppend(produced, action.out, cellId, sessionId);
          yielded := yielded + [Item(action.out, cellId, sessionId)];
          produced := produced + [action.out];
        }
      }
      i := i + 1;
    }
  }
}
