/** Normalisation of a conversation before it is sent to a model: pairing
    tool calls with tool responses, folding a trailing AI message into the
    one before it, and turning system messages into human ones.

    Every function here works on a deep copy in the source; sequences are
    values in Dafny, so the caller's list is never changed. */
module Messages {
  import opened Common

  /** One element of list-valued content: its `"type"` and, when present,
      its `"text"` entry. */
  datatype ContentItem = ContentItem(kind: string, text: Option<string>)

  /** Message content is either a plain string or a list of items. */
  datatype Content = Str(s: string) | Items(items: seq<ContentItem>)

  /** A tool call requested by an AI message; its `"id"` may be `None`. */
  datatype ToolCall = ToolCall(id: Option<string>, name: string)

  datatype Message =
    | Human(content: Content)
    | System(content: Content)
    | AI(content: Content, toolCalls: seq<ToolCall>)
    | Tool(content: Content, toolCallId: string)

  // ---------------------------------------------------------------------
  // to_human_message and system_to_human

  /** `to_human_message`: a human message with the same content. */
  function ToHuman(m: Message): (r: Message)
    ensures r.Human? && r.content == m.content
  {
    Human(m.content)
  }

  /** What `system_to_human` does to one message. */
  function Humanize(m: Message): (r: Message)
    ensures !r.System? && r.content == m.content
    ensures m.System? ==> r == ToHuman(m)
    ensures !m.System? ==> r == m
  {
    if m.System? then ToHuman(m) else m
  }

  /** `system_to_human`: the append loop over the messages. */
  method SystemToHuman(messages: seq<Message>) returns (r: seq<Message>)
    ensures |r| == |messages|
    ensures forall i :: 0 <= i < |r| ==> r[i] == Humanize(messages[i])
    ensures forall i :: 0 <= i < |r| ==> !r[i].System? && r[i].content == messages[i].content
  {
    r := [];
    for i := 0 to |messages|
      invariant |r| == i
      invariant forall j :: 0 <= j < i ==> r[j] == Humanize(messages[j])
    {
      var m := messages[i];
      if m.System? {
        r := r + [Human(m.content)];
      } else {
        r := r + [m];
      }
    }
  }

  // ---------------------------------------------------------------------
  // reformat_messages

  datatype ReformatError = IndexError | KeyError(key: string)

  /** The `"text"` entries of content read as a list: a string is the one
      item `{"type": "text", "text": s}`; `None` when an item has no text. */
  function Texts(c: Content): Option<seq<string>>
  {
    match c
    case Str(s) => Some([s])
    case Items(items) => ItemTexts(items)
  }

  function ItemTexts(items: seq<ContentItem>): Option<seq<string>>
  {
    if items == [] then Some([])
    else if items[0].text.None? then None
    else match ItemTexts(items[1..])
      case None => None
      case Some(ts) => Some([items[0].text.value] + ts)
  }

  /** `[{"type": "text", "text": t} for t in texts]`. Reading the texts back
      gives the list itself. */
  function TextItems(texts: seq<string>): (r: seq<ContentItem>)
    ensures |r| == |texts|
    ensures forall k :: 0 <= k < |r| ==> r[k].kind == "text" && r[k].text == Some(texts[k])
    ensures Texts(Items(r)) == Some(texts)
  {
    if texts == [] then []
    else
      var tail := TextItems(texts[1..]);
      assert [texts[0]] + texts[1..] == texts;
      [ContentItem("text", Some(texts[0]))] + tail
  }

  /** `reformat_messages`. When the last message is an AI message its
      content is appended, as text items, to the content of the message
      before it, and the last message is dropped. Indexing an empty list,
      or `messages[-2]` of a one-element list, raises `IndexError`; an item
      without `"text"` raises `KeyError`. */
  method ReformatMessages(messages: seq<Message>) returns (r: Result<seq<Message>, ReformatError>)
    ensures messages == [] ==> r == Failure(IndexError)
    ensures messages != [] && !messages[|messages| - 1].AI? ==> r == Success(messages)
    ensures |messages| == 1 && messages[0].AI? ==> r == Failure(IndexError)
    ensures |messages| >= 2 && messages[|messages| - 1].AI? ==>
      var prev, last := Texts(messages[|messages| - 2].content), Texts(messages[|messages| - 1].content);
      (if prev.Some? && last.Some?
       then r.Success? && |r.value| == |messages| - 1 &&
            r.value[..|messages| - 2] == messages[..|messages| - 2] &&
            r.value[|messages| - 2] ==
              messages[|messages| - 2].(content := Items(TextItems(prev.value + last.value))) &&
            Texts(r.value[|messages| - 2].content) == Some(prev.value + last.value)
       else r == Failure(KeyError("text")))
  {
    if messages == [] {
      return Failure(IndexError);
    }
    var n := |messages|;
    if !messages[n - 1].AI? {
      return Success(messages);
    }
    if n < 2 {
      return Failure(IndexError);
    }
    var prev := Texts(messages[n - 2].content);
    var last := Texts(messages[n - 1].content);
    if prev.None? || last.None? {
      return Failure(KeyError("text"));
    }
    var copy := messages;
    copy := copy[n - 2 := copy[n - 2].(content := Items(TextItems(prev.value + last.value)))];
    r := Success(copy[..n - 1]);
  }

  // ---------------------------------------------------------------------
  // remove_bad_tool_call_responses

  /** The ids of a list of tool calls, as a set. */
  function IdsOf(calls: seq<ToolCall>): set<Option<string>>
  {
    set c | c in calls :: c.id
  }

  /** The ids of a list of tool responses, as a set. */
  function ResponseIdsOf(responses: seq<string>): set<Option<string>>
  {
    set t | t in responses :: Some(t)
  }

  /** The tool-call ids an AI message carries. */
  function CallIdsOf(m: Message): set<Option<string>>
  {
    if m.AI? then IdsOf(m.toolCalls) else {}
  }

  /** The id a tool message answers. */
  function ResponseIdOf(m: Message): set<Option<string>>
  {
    if m.Tool? then {Some(m.toolCallId)} else {}
  }

  /** All tool-call ids of a conversation. */
  function CallIds(ms: seq<Message>): set<Option<string>>
  {
    if ms == [] then {} else CallIds(ms[..|ms| - 1]) + CallIdsOf(ms[|ms| - 1])
  }

  /** All ids answered by tool messages of a conversation. */
  function ResponseIds(ms: seq<Message>): set<Option<string>>
  {
    if ms == [] then {} else ResponseIds(ms[..|ms| - 1]) + ResponseIdOf(ms[|ms| - 1])
  }

  function SymDiff(a: set<Option<string>>, b: set<Option<string>>): (d: set<Option<string>>)
    ensures forall x :: x in d <==> (x in a) != (x in b)
  {
    (a - b) + (b - a)
  }

  /** `[call for call in calls if call["id"] not in removed]`. */
  function FilterCalls(calls: seq<ToolCall>, removed: set<Option<string>>): (r: seq<ToolCall>)
    ensures forall c :: c in r <==> c in calls && c.id !in removed
    ensures |r| <= |calls|
  {
    if calls == [] then []
    else (if calls[0].id in removed then [] else [calls[0]]) + FilterCalls(calls[1..], removed)
  }

  /** A message with its tool calls (if any) filtered. */
  function Mark(m: Message, removed: set<Option<string>>): Message
  {
    if m.AI? then m.(toolCalls := FilterCalls(m.toolCalls, removed)) else m
  }

  /** What the second loop appends for one message. */
  function Keep(m: Message, removed: set<Option<string>>): seq<Message>
  {
    if m.Tool? && Some(m.toolCallId) in removed then [] else [Mark(m, removed)]
  }

  function Pruned(ms: seq<Message>, removed: set<Option<string>>): seq<Message>
  {
    if ms == [] then [] else Pruned(ms[..|ms| - 1], removed) + Keep(ms[|ms| - 1], removed)
  }

  /** What `remove_bad_tool_call_responses` returns: every id that is a
      call without a response, or a response without a call, is removed. */
  function Repaired(ms: seq<Message>): seq<Message>
  {
    Pruned(ms, SymDiff(CallIds(ms), ResponseIds(ms)))
  }

  /** `remove_bad_tool_call_responses`: the collecting loop, the symmetric
      difference, and the filtering loop. */
  method RemoveBadToolCallResponses(messages: seq<Message>) returns (r: seq<Message>)
    ensures r == Repaired(messages)
  {
    var allCalls: seq<ToolCall> := [];
    var allResponses: seq<string> := [];
    for i := 0 to |messages|
      invariant IdsOf(allCalls) == CallIds(messages[..i])
      invariant ResponseIdsOf(allResponses) == ResponseIds(messages[..i])
    {
      var m := messages[i];
      assert messages[..i + 1][..i] == messages[..i];
      if m.Tool? {
        allResponses := allResponses + [m.toolCallId];
        assert ResponseIdsOf(allResponses) == ResponseIdsOf(allResponses[..|allResponses| - 1]) + {Some(m.toolCallId)};
      } else if m.AI? {
        if m.toolCalls != [] {
          IdsOfAppend(allCalls, m.toolCalls);
          allCalls := allCalls + m.toolCalls;
        }
      }
    }
    assert messages[..|messages|] == messages;
    var toRemove := SymDiff(IdsOf(allCalls), ResponseIdsOf(allResponses));
    r := [];
    for i := 0 to |messages|
      invariant r == Pruned(messages[..i], toRemove)
    {
      var m := messages[i];
      assert messages[..i + 1][..i] == messages[..i];
      if m.Tool? {
        if Some(m.toolCallId) !in toRemove {
          r := r + [m];
        }
      } else if m.AI? {
        if m.toolCalls != [] {
          m := m.(toolCalls := FilterCalls(m.toolCalls, toRemove));
        }
        r := r + [m];
      } else {
        r := r + [m];
      }
    }
  }

  lemma IdsOfAppend(a: seq<ToolCall>, b: seq<ToolCall>)
    ensures IdsOf(a + b) == IdsOf(a) + IdsOf(b)
  {
    assert forall c :: c in a + b <==> c in a || c in b;
  }

  // ---------------------------------------------------------------------
  // Properties of the repair

  lemma CallIdsAppend(ms: seq<Message>, m: Message)
    ensures CallIds(ms + [m]) == CallIds(ms) + CallIdsOf(m)
    ensures ResponseIds(ms + [m]) == ResponseIds(ms) + ResponseIdOf(m)
  {
    assert (ms + [m])[..|ms|] == ms;
  }

  lemma IdsOfFilter(calls: seq<ToolCall>, removed: set<Option<string>>)
    ensures IdsOf(FilterCalls(calls, removed)) == IdsOf(calls) - removed
  {
  }

  /** The last message of a pruned list contributes `Keep` of it. */
  lemma PrunedUnfold(ms: seq<Message>, removed: set<Option<string>>)
    requires ms != []
    ensures Pruned(ms, removed) == Pruned(ms[..|ms| - 1], removed) + Keep(ms[|ms| - 1], removed)
  {
  }

  /** Filtering takes exactly the removed ids out of the call ids. */
  lemma {:induction false} PrunedCallIds(ms: seq<Message>, removed: set<Option<string>>)
    ensures CallIds(Pruned(ms, removed)) == CallIds(ms) - removed
    decreases |ms|
  {
    if ms != [] {
      var init, m := ms[..|ms| - 1], ms[|ms| - 1];
      PrunedCallIds(init, removed);
      PrunedUnfold(ms, removed);
      KeepCallIds(Pruned(init, removed), m, removed);
      assert CallIds(ms) == CallIds(init) + CallIdsOf(m);
    }
  }

  /** The message kept for `m` contributes its call ids less the removed ones. */
  lemma KeepCallIds(p: seq<Message>, m: Message, removed: set<Option<string>>)
    ensures CallIds(p + Keep(m, removed)) == CallIds(p) + (CallIdsOf(m) - removed)
  {
    if Keep(m, removed) == [] {
      assert p + [] == p;
    } else {
      CallIdsAppend(p, Mark(m, removed));
      if m.AI? {
        IdsOfFilter(m.toolCalls, removed);
      }
    }
  }

  /** Filtering takes exactly the removed ids out of the response ids. */
  lemma {:induction false} PrunedResponseIds(ms: seq<Message>, removed: set<Option<string>>)
    ensures ResponseIds(Pruned(ms, removed)) == ResponseIds(ms) - removed
    decreases |ms|
  {
    if ms != [] {
      var init, m := ms[..|ms| - 1], ms[|ms| - 1];
      PrunedResponseIds(init, removed);
      PrunedUnfold(ms, removed);
      var p := Pruned(init, removed);
      if Keep(m, removed) == [] {
        assert p + [] == p;
      } else {
        CallIdsAppend(p, Mark(m, removed));
      }
    }
  }

  /** After the repair the call ids and the response ids coincide, and both
      are the ids that were on both sides before. */
  lemma RepairedPairsCalls(ms: seq<Message>)
    ensures CallIds(Repaired(ms)) == CallIds(ms) * ResponseIds(ms)
    ensures ResponseIds(Repaired(ms)) == CallIds(ms) * ResponseIds(ms)
  {
    PrunedCallIds(ms, SymDiff(CallIds(ms), ResponseIds(ms)));
    PrunedResponseIds(ms, SymDiff(CallIds(ms), ResponseIds(ms)));
  }

  /** Filtering by the empty set changes nothing. */
  lemma {:induction false} PrunedNothing(ms: seq<Message>)
    ensures Pruned(ms, {}) == ms
    decreases |ms|
  {
    if ms != [] {
      PrunedNothing(ms[..|ms| - 1]);
      var m := ms[|ms| - 1];
      if m.AI? {
        FilterCallsNothing(m.toolCalls);
      }
      assert ms[..|ms| - 1] + [m] == ms;
    }
  }

  lemma {:induction false} FilterCallsNothing(calls: seq<ToolCall>)
    ensures FilterCalls(calls, {}) == calls
    decreases |calls|
  {
    if calls != [] {
      FilterCallsNothing(calls[1..]);
      assert [calls[0]] + calls[1..] == calls;
    }
  }

  /** A second repair removes nothing. */
  lemma RepairedIdempotent(ms: seq<Message>)
    ensures Repaired(Repaired(ms)) == Repaired(ms)
  {
    var r := Repaired(ms);
    RepairedPairsCalls(ms);
    assert SymDiff(CallIds(r), ResponseIds(r)) == {};
    PrunedNothing(r);
  }

  /** The messages with tool calls filtered, none dropped. */
  function Marked(ms: seq<Message>, removed: set<Option<string>>): (r: seq<Message>)
    ensures |r| == |ms|
  {
    if ms == [] then [] else Marked(ms[..|ms| - 1], removed) + [Mark(ms[|ms| - 1], removed)]
  }

  /** The messages that are not tool messages, in order. */
  function NonTools(ms: seq<Message>): seq<Message>
  {
    if ms == [] then []
    else NonTools(ms[..|ms| - 1]) + (if ms[|ms| - 1].Tool? then [] else [ms[|ms| - 1]])
  }

  /** The repair only deletes: its result is a subsequence of the messages
      with their tool calls filtered. */
  lemma {:induction false} PrunedIsSubsequence(ms: seq<Message>, removed: set<Option<string>>)
    ensures IsSubsequence(Pruned(ms, removed), Marked(ms, removed))
    decreases |ms|
  {
    if ms == [] {
    } else {
      var init, m := ms[..|ms| - 1], ms[|ms| - 1];
      PrunedIsSubsequence(init, removed);
      var x := Mark(m, removed);
      if Keep(m, removed) == [] {
        SubsequenceRefl<Message>([]);
        assert IsSubsequence<Message>([], [x]);
      } else {
        SubsequenceRefl([x]);
      }
      SubsequenceConcat(Pruned(init, removed), Marked(init, removed), Keep(m, removed), [x]);
    }
  }

  lemma NonToolsAppend(ms: seq<Message>, m: Message)
    ensures NonTools(ms + [m]) == NonTools(ms) + (if m.Tool? then [] else [m])
  {
    assert (ms + [m])[..|ms|] == ms;
  }

  /** Only tool messages are deleted: every other message is kept, in
      order, with its tool calls filtered. */
  lemma {:induction false} PrunedKeepsOthers(ms: seq<Message>, removed: set<Option<string>>)
    ensures NonTools(Pruned(ms, removed)) == NonTools(Marked(ms, removed))
    decreases |ms|
  {
    if ms != [] {
      var init, m := ms[..|ms| - 1], ms[|ms| - 1];
      PrunedKeepsOthers(init, removed);
      NonToolsAppend(Marked(init, removed), Mark(m, removed));
      if Keep(m, removed) == [] {
        assert Pruned(init, removed) + [] == Pruned(init, removed);
      } else {
        NonToolsAppend(Pruned(init, removed), Mark(m, removed));
      }
    }
  }
}
