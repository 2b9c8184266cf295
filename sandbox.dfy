/** The unified sandbox of jupyter_async.py: one kernel per session id,
    a blocking client and an asynchronous client attached to it, a
    bootstrap that runs once per session, and the registry operations.

    Kernel processes and clients are opaque: a started kernel is the
    `kernelAlive` flag, an attached client is a handle number. The model
    records every command sent to a kernel in `submitted`, so that the
    order of bootstrap and user code can be stated. Calls are sequential;
    the locks are not modelled. */
module Sandbox {
  import opened Common
  import opened Iopub
  import PyLiteral

  /** One entry of `self.sessions`. */
  datatype Session = Session(
    kernelAlive: bool,
    kc: Option<nat>,
    akc: Option<nat>,
    initialized: bool,
    lastUsed: real)

  /** A command sent to the kernel of a session. */
  datatype Submission = Submission(sessionId: string, code: string)

  /** The kernel's side of one bootstrap command: the id `execute`
      returned, and the results of the successive two-second polls
      (`None` when a poll raised `queue.Empty`). */
  datatype Reply = Reply(msgId: string, trace: seq<Option<Msg>>)

  /** Everything the kernel and the clock contribute to one
      `execute_code` call: the clock when the session is looked up,
      whether the client becomes ready, the bootstrap replies, the clock
      when the deadline is computed, the id of the submitted request and
      the polls of the drain loop. */
  datatype Script = Script(
    now: real,
    clientReady: bool,
    boot: seq<Reply>,
    start: real,
    msgId: string,
    polls: seq<Poll>)

  /** Why a call produced no outputs: `wait_for_ready` raised, or the
      asynchronous bootstrap waits forever for an `idle` that never comes
      (the coroutine does not return). */
  datatype Stall = StartupFailure | BootstrapHangs

  /** How waiting for one bootstrap command's `idle` ends. */
  datatype Wait = Settled | Silent | Hangs

  function Submissions(sessionId: string, cmds: seq<string>): (r: seq<Submission>)
    ensures |r| == |cmds|
    ensures forall i :: 0 <= i < |cmds| ==> r[i] == Submission(sessionId, cmds[i])
  {
    if cmds == [] then [] else [Submission(sessionId, cmds[0])] + Submissions(sessionId, cmds[1..])
  }

  /** The wait after one bootstrap command. Messages for other requests
      are skipped; the matching `idle` settles it. The blocking client
      raises `queue.Empty` on a silent poll, and the kernel stays silent
      once its trace is over; the asynchronous client retries a silent
      poll, so it waits forever when no `idle` comes. */
  function WaitIdle(trace: seq<Option<Msg>>, msgId: string, blocking: bool): (w: Wait)
    ensures blocking ==> w != Hangs
    ensures !blocking ==> w != Silent
    decreases |trace|
  {
    if trace == [] then (if blocking then Silent else Hangs)
    else if trace[0].None? then
      (if blocking then Silent else WaitIdle(trace[1..], msgId, blocking))
    else if Accepted(trace[0].value, msgId) && IsIdleStatus(trace[0].value) then Settled
    else WaitIdle(trace[1..], msgId, blocking)
  }

  /** The number of bootstrap commands sent: each one is sent after the
      previous one settled; the first that does not settle is the last. */
  function BootSent(replies: seq<Reply>, blocking: bool): (n: nat)
    ensures n <= |replies|
    ensures replies != [] ==> n >= 1
    ensures forall k :: 0 <= k < n - 1 ==> WaitIdle(replies[k].trace, replies[k].msgId, blocking) == Settled
    ensures n < |replies| ==> WaitIdle(replies[n - 1].trace, replies[n - 1].msgId, blocking) != Settled
    decreases |replies|
  {
    if replies == [] then 0
    else if WaitIdle(replies[0].trace, replies[0].msgId, blocking) == Settled then
      1 + BootSent(replies[1..], blocking)
    else 1
  }

  /** The asynchronous bootstrap never returns when one of its commands
      never settles. */
  predicate BootHangs(replies: seq<Reply>)
  {
    var n := BootSent(replies, false);
    n > 0 && WaitIdle(replies[n - 1].trace, replies[n - 1].msgId, false) == Hangs
  }

  /** The wait loop `while True: msg = get_iopub_msg(timeout=2) ...` of
      the bootstrap, for the blocking (`blocking`) or the asynchronous
      client. */
  method AwaitIdle(trace: seq<Option<Msg>>, msgId: string, blocking: bool) returns (w: Wait)
    ensures w == WaitIdle(trace, msgId, blocking)
  {
    var i := 0;
    while i < |trace|
      invariant 0 <= i <= |trace|
      invariant WaitIdle(trace[i..], msgId, blocking) == WaitIdle(trace, msgId, blocking)
      decreases |trace| - i
    {
      assert trace[i..][1..] == trace[i + 1..];
      var polled := trace[i];
      if polled.None? {
        if blocking {
          return Silent;
        }
      } else if Accepted(polled.value, msgId) && IsIdleStatus(polled.value) {
        return Settled;
      }
      i := i + 1;
    }
    w := if blocking then Silent else Hangs;
  }

  /** The asynchronous client of a session exists or can be made ready. */
  predicate AsyncReady(sessions: map<string, Session>, sessionId: string, clientReady: bool)
  {
    (sessionId in sessions && sessions[sessionId].akc.Some?) || clientReady
  }

  /** The asynchronous bootstrap runs for this session and never returns. */
  predicate AsyncHangs(sessions: map<string, Session>, sessionId: string, clientReady: bool, replies: seq<Reply>)
  {
    && AsyncReady(sessions, sessionId, clientReady)
    && !(sessionId in sessions && sessions[sessionId].initialized)
    && BootHangs(replies)
  }

  class JupyterSandbox {
    const workingDir: string
    var sessions: map<string, Session>
    var submitted: seq<Submission>
    /** Number of client objects created so far; the next handle. */
    var clients: nat

    constructor (workingDir: string)
      ensures this.workingDir == workingDir
      ensures sessions == map[] && submitted == [] && clients == 0
    {
      this.workingDir := workingDir;
      sessions := map[];
      submitted := [];
      clients := 0;
    }

    /** `_ensure_session_struct`: a new entry starts with no clients and
        no bootstrap; an existing entry only has its `last_used` refreshed;
        no other entry changes. */
    method EnsureSessionStruct(sessionId: string, now: real)
      modifies this`sessions
      ensures sessionId in sessions
      ensures sessionId !in old(sessions) ==> sessions[sessionId] == Session(false, None, None, false, now)
      ensures sessionId in old(sessions) ==> sessions[sessionId] == old(sessions[sessionId]).(lastUsed := now)
      ensures sessions == old(sessions)[sessionId := sessions[sessionId]]
    {
      if sessionId !in sessions {
        sessions := sessions[sessionId := Session(false, None, None, false, now)];
      } else {
        sessions := sessions[sessionId := sessions[sessionId].(lastUsed := now)];
      }
    }

    /** `_init_once_sync`: nothing is sent when the flag is already set;
        otherwise the bootstrap commands go out in their fixed order until
        one of them is met by a silent poll (the `queue.Empty` is swallowed
        and the rest is skipped). The flag is set on every exit path. */
    method InitOnceSync(sessionId: string, replies: seq<Reply>)
      requires sessionId in sessions && |replies| == 3
      modifies this`sessions, this`submitted
      ensures old(sessions[sessionId].initialized) ==>
        sessions == old(sessions) && submitted == old(submitted)
      ensures !old(sessions[sessionId].initialized) ==>
        sessions == old(sessions)[sessionId := old(sessions[sessionId]).(initialized := true)]
      ensures !old(sessions[sessionId].initialized) ==>
        submitted == old(submitted) + Submissions(sessionId,
          PyLiteral.BootstrapCommands(workingDir)[..
            if old(sessions[sessionId].kc).None? then 0 else BootSent(replies, true)])
    {
      if sessions[sessionId].initialized {
        return;
      }
      var cmds := PyLiteral.BootstrapCommands(workingDir);
      ghost var before := submitted;
      if sessions[sessionId].kc.Some? {
        var k := 0;
        while k < 3
          invariant 0 <= k <= 3
          invariant k <= BootSent(replies, true)
          invariant sessions == old(sessions)
          invariant submitted == before + Submissions(sessionId, cmds[..k])
          invariant forall j :: 0 <= j < k ==> WaitIdle(replies[j].trace, replies[j].msgId, true) == Settled
          decreases 3 - k
        {
          BootSentSettledPrefix(replies, true, k);
          assert cmds[..k + 1] == cmds[..k] + [cmds[k]];
          SubmissionsAppend(sessionId, cmds[..k], cmds[k]);
          submitted := submitted + [Submission(sessionId, cmds[k])];
          var w := AwaitIdle(replies[k].trace, replies[k].msgId, true);
          if w != Settled {
            BootSentStops(replies, true, k);
            break;
          }
          k := k + 1;
        }
      }
      sessions := sessions[sessionId := sessions[sessionId].(initialized := true)];
    }

    /** `_init_once_async`: like the blocking version, except that a
        silent poll is retried. When a command never settles the coroutine
        never returns and the flag stays unset (`hangs`); on every path
        that returns, the flag is set. */
    method InitOnceAsync(sessionId: string, replies: seq<Reply>) returns (hangs: bool)
      requires sessionId in sessions && |replies| == 3
      modifies this`sessions, this`submitted
      ensures old(sessions[sessionId].initialized) ==>
        !hangs && sessions == old(sessions) && submitted == old(submitted)
      ensures !old(sessions[sessionId].initialized) ==>
        hangs == (old(sessions[sessionId].akc).Some? && BootHangs(replies))
      ensures !old(sessions[sessionId].initialized) ==>
        sessions == (if hangs then old(sessions)
                     else old(sessions)[sessionId := old(sessions[sessionId]).(initialized := true)])
      ensures !old(sessions[sessionId].initialized) ==>
        submitted == old(submitted) + Submissions(sessionId,
          PyLiteral.BootstrapCommands(workingDir)[..
            if old(sessions[sessionId].akc).None? then 0 else BootSent(replies, false)])
    {
      hangs := false;
      if sessions[sessionId].initialized {
        return;
      }
      var cmds := PyLiteral.BootstrapCommands(workingDir);
      ghost var before := submitted;
      if sessions[sessionId].akc.Some? {
        var k := 0;
        while k < 3
          invariant 0 <= k <= 3
          invariant k <= BootSent(replies, false)
          invariant sessions == old(sessions)
          invariant submitted == before + Submissions(sessionId, cmds[..k])
          invariant forall j :: 0 <= j < k ==> WaitIdle(replies[j].trace, replies[j].msgId, false) == Settled
          invariant k == 3 ==> !BootHangs(replies)
          decreases 3 - k
        {
          BootSentSettledPrefix(replies, false, k);
          assert cmds[..k + 1] == cmds[..k] + [cmds[k]];
          SubmissionsAppend(sessionId, cmds[..k], cmds[k]);
          submitted := submitted + [Submission(sessionId, cmds[k])];
          var w := AwaitIdle(replies[k].trace, replies[k].msgId, false);
          if w != Settled {
            BootSentStops(replies, false, k);
            hangs := true;
            return;
          }
          k := k + 1;
          if k == 3 {
            BootSentSettledPrefix(replies, false, 3);
          }
        }
      }
      sessions := sessions[sessionId := sessions[sessionId].(initialized := true)];
    }

    /** `get_or_create_session`: the entry is ensured, the kernel started,
        the blocking client attached once (when `wait_for_ready` fails the
        error propagates and the entry keeps no client), and the bootstrap
        run once. Other entries do not change. */
    method GetOrCreateSession(sessionId: string, now: real, clientReady: bool, replies: seq<Reply>)
      returns (ok: bool)
      requires |replies| == 3
      modifies this`sessions, this`submitted, this`clients
      ensures sessionId in sessions && sessions.Keys == old(sessions.Keys) + {sessionId}
      ensures forall k :: k in old(sessions) && k != sessionId ==> sessions[k] == old(sessions[k])
      ensures sessions[sessionId].kernelAlive && sessions[sessionId].lastUsed == now
      ensures sessions[sessionId].akc == (if sessionId in old(sessions) then old(sessions[sessionId].akc) else None)
      ensures ok <==> (sessionId in old(sessions) && old(sessions[sessionId].kc).Some?) || clientReady
      ensures ok ==> sessions[sessionId].kc.Some? && sessions[sessionId].initialized
      ensures ok ==> (submitted == old(submitted) +
        (if sessionId in old(sessions) && old(sessions[sessionId].initialized) then []
         else Submissions(sessionId, PyLiteral.BootstrapCommands(workingDir)[..BootSent(replies, true)])))
      ensures !ok ==> submitted == old(submitted) && sessions[sessionId].kc.None?
    {
      EnsureSessionStruct(sessionId, now);
      sessions := sessions[sessionId := sessions[sessionId].(kernelAlive := true)];
      if sessions[sessionId].kc.None? {
        if !clientReady {
          return false;
        }
        sessions := sessions[sessionId := sessions[sessionId].(kc := Some(clients))];
        clients := clients + 1;
      }
      InitOnceSync(sessionId, replies);
      ok := true;
    }

    /** `aget_or_create_session`: the same with the asynchronous client
        and bootstrap. */
    method AGetOrCreateSession(sessionId: string, now: real, clientReady: bool, replies: seq<Reply>)
      returns (stall: Option<Stall>)
      requires |replies| == 3
      modifies this`sessions, this`submitted, this`clients
      ensures sessionId in sessions && sessions.Keys == old(sessions.Keys) + {sessionId}
      ensures forall k :: k in old(sessions) && k != sessionId ==> sessions[k] == old(sessions[k])
      ensures sessions[sessionId].kernelAlive && sessions[sessionId].lastUsed == now
      ensures sessions[sessionId].kc == (if sessionId in old(sessions) then old(sessions[sessionId].kc) else None)
      ensures stall == Some(StartupFailure) <==> !AsyncReady(old(sessions), sessionId, clientReady)
      ensures stall == Some(BootstrapHangs) <==> AsyncHangs(old(sessions), sessionId, clientReady, replies)
      ensures stall.None? ==> sessions[sessionId].akc.Some? && sessions[sessionId].initialized
      ensures stall != Some(BootstrapHangs) ==> (submitted == old(submitted) +
        (if stall.Some? || (sessionId in old(sessions) && old(sessions[sessionId].initialized)) then []
         else Submissions(sessionId, PyLiteral.BootstrapCommands(workingDir)[..BootSent(replies, false)])))
    {
      EnsureSessionStruct(sessionId, now);
      sessions := sessions[sessionId := sessions[sessionId].(kernelAlive := true)];
      if sessions[sessionId].akc.None? {
        if !clientReady {
          return Some(StartupFailure);
        }
        sessions := sessions[sessionId := sessions[sessionId].(akc := Some(clients))];
        clients := clients + 1;
      }
      var hangs := InitOnceAsync(sessionId, replies);
      stall := if hangs then Some(BootstrapHangs) else None;
    }

    /** Submitting the user's code once the client is ready, and draining
        the replies to it against the deadline `start + timeout`. */
    method RunRequest(code: string, sessionId: string, cellId: string, timeout: int, script: Script)
      returns (items: seq<Item>)
      modifies this`submitted
      ensures submitted == old(submitted) + [Submission(sessionId, code)]
      ensures items == Stamped(Outputs(Drain(script.polls, script.msgId,
                         script.start + timeout as real), timeout), cellId, sessionId)
    {
      var deadline := script.start + timeout as real;
      submitted := submitted + [Submission(sessionId, code)];
      var outputs, ending := CollectOutputs(script.polls, script.msgId, deadline, timeout);
      items := StampOutputs(outputs, cellId, sessionId);
    }

    /** `execute_code`: the outputs are the drain of the request's polls
        against `start + timeout`, stamped with the cell and session ids;
        the user's code is the last command sent. */
    method ExecuteCode(code: string, sessionId: string, cellId: string, timeout: int, script: Script)
      returns (res: Result<seq<Item>, Stall>)
      requires |script.boot| == 3
      modifies this`sessions, this`submitted, this`clients
      ensures sessionId in sessions && sessions.Keys == old(sessions.Keys) + {sessionId}
      ensures forall k :: k in old(sessions) && k != sessionId ==> sessions[k] == old(sessions[k])
      ensures res.Success? <==> (sessionId in old(sessions) && old(sessions[sessionId].kc).Some?) || script.clientReady
      ensures res.Failure? ==> res.error == StartupFailure && submitted == old(submitted)
      ensures res.Success? ==> res.value == Stamped(Outputs(Drain(script.polls, script.msgId,
                                  script.start + timeout as real), timeout), cellId, sessionId)
      ensures res.Success? ==> |submitted| > |old(submitted)| && submitted[|submitted| - 1] == Submission(sessionId, code)
    {
      var ok := GetOrCreateSession(sessionId, script.now, script.clientReady, script.boot);
      if !ok {
        return Failure(StartupFailure);
      }
      var items := RunRequest(code, sessionId, cellId, timeout, script);
      res := Success(items);
    }

    /** `aexecute_code`: the same drain through the asynchronous client. */
    method AExecuteCode(code: string, sessionId: string, cellId: string, timeout: int, script: Script)
      returns (res: Result<seq<Item>, Stall>)
      requires |script.boot| == 3
      modifies this`sessions, this`submitted, this`clients
      ensures sessionId in sessions && sessions.Keys == old(sessions.Keys) + {sessionId}
      ensures forall k :: k in old(sessions) && k != sessionId ==> sessions[k] == old(sessions[k])
      ensures res.Success? <==> AsyncReady(old(sessions), sessionId, script.clientReady) &&
                                !AsyncHangs(old(sessions), sessionId, script.clientReady, script.boot)
      ensures res.Failure? ==> (res.error == StartupFailure <==> !AsyncReady(old(sessions), sessionId, script.clientReady))
      ensures res.Success? ==> res.value == Stamped(Outputs(Drain(script.polls, script.msgId,
                                  script.start + timeout as real), timeout), cellId, sessionId)
      ensures res.Success? ==> |submitted| > |old(submitted)| && submitted[|submitted| - 1] == Submission(sessionId, code)
    {
      var stall := AGetOrCreateSession(sessionId, script.now, script.clientReady, script.boot);
      if stall.Some? {
        assert stall == Some(stall.value) && (stall.value.StartupFailure? || stall.value.BootstrapHangs?);
        return Failure(stall.value);
      }
      var items := RunRequest(code, sessionId, cellId, timeout, script);
      res := Success(items);
    }

    /** `astream_execute_code`: `yielded` lists the items in the order the
        generator hands them over; they are exactly the items
        `aexecute_code` returns for the same script and state. */
    method AStreamExecuteCode(code: string, sessionId: string, cellId: string, timeout: int, script: Script)
      returns (res: Result<seq<Item>, Stall>)
      requires |script.boot| == 3
      modifies this`sessions, this`submitted, this`clients
      ensures sessionId in sessions && sessions.Keys == old(sessions.Keys) + {sessionId}
      ensures forall k :: k in old(sessions) && k != sessionId ==> sessions[k] == old(sessions[k])
      ensures res.Success? <==> AsyncReady(old(sessions), sessionId, script.clientReady) &&
                                !AsyncHangs(old(sessions), sessionId, script.clientReady, script.boot)
      ensures res.Failure? ==> (res.error == StartupFailure <==> !AsyncReady(old(sessions), sessionId, script.clientReady))
      ensures res.Success? ==> res.value == Stamped(Outputs(Drain(script.polls, script.msgId,
                                  script.start + timeout as real), timeout), cellId, sessionId)
      ensures res.Success? ==> |submitted| > |old(submitted)| && submitted[|submitted| - 1] == Submission(sessionId, code)
    {
      var stall := AGetOrCreateSession(sessionId, script.now, script.clientReady, script.boot);
      if stall.Some? {
        assert stall == Some(stall.value) && (stall.value.StartupFailure? || stall.value.BootstrapHangs?);
        return Failure(stall.value);
      }
      var deadline := script.start + timeout as real;
      submitted := submitted + [Submission(sessionId, code)];
      var yielded, ending := StreamOutputs(script.polls, script.msgId, deadline, timeout, cellId, sessionId);
      res := Success(yielded);
    }

    /** `close_session` (and `aclose_session`): the entry is removed
        whatever stopping the clients does; an absent id is a no-op. */
    method CloseSession(sessionId: string)
      modifies this`sessions
      ensures sessions == old(sessions) - {sessionId}
    {
      if sessionId !in sessions {
        return;
      }
      sessions := sessions - {sessionId};
    }

    /** `close_all_sessions`: every entry is closed, one by one. */
    method CloseAllSessions()
      modifies this`sessions
      ensures sessions == map[]
    {
      var ids := sessions.Keys;
      while ids != {}
        invariant sessions.Keys == ids
        decreases ids
      {
        var sid :| sid in ids;
        CloseSession(sid);
        ids := ids - {sid};
      }
    }

    /** `cleanup_inactive_sessions`: exactly the entries idle for longer
        than `maxIdleTime` at `now` are closed; the rest are kept as they
        were. */
    method CleanupInactiveSessions(maxIdleTime: int, now: real)
      modifies this`sessions
      ensures sessions == map sid | sid in old(sessions) && !IsStale(old(sessions)[sid], now, maxIdleTime)
                                  :: old(sessions)[sid]
    {
      var stale := set sid | sid in sessions && IsStale(sessions[sid], now, maxIdleTime);
      ghost var all := stale;
      while stale != {}
        invariant stale <= all
        invariant sessions == old(sessions) - (all - stale)
        decreases stale
      {
        var sid :| sid in stale;
        CloseSession(sid);
        stale := stale - {sid};
      }
    }
  }

  predicate IsStale(s: Session, now: real, maxIdleTime: int)
  {
    now - s.lastUsed > maxIdleTime as real
  }

  lemma SubmissionsAppend(sessionId: string, cmds: seq<string>, c: string)
    ensures Submissions(sessionId, cmds + [c]) == Submissions(sessionId, cmds) + [Submission(sessionId, c)]
  {
  }

  /** Every command before the count settled. */
  lemma BootSentSettledPrefix(replies: seq<Reply>, blocking: bool, k: nat)
    requires k <= |replies|
    requires forall j :: 0 <= j < k ==> WaitIdle(replies[j].trace, replies[j].msgId, blocking) == Settled
    ensures k <= BootSent(replies, blocking) || (k == |replies| && BootSent(replies, blocking) == |replies|)
    ensures k == |replies| ==> BootSent(replies, blocking) == |replies|
    ensures k == |replies| && !blocking && replies != [] ==> !BootHangs(replies)
  {
    if k == |replies| && replies != [] {
      BootSentAllSettled(replies, blocking);
    } else if k > 0 {
      BootSentAtLeast(replies, blocking, k);
    }
  }

  lemma {:induction false} BootSentAtLeast(replies: seq<Reply>, blocking: bool, k: nat)
    requires 0 < k < |replies|
    requires forall j :: 0 <= j < k ==> WaitIdle(replies[j].trace, replies[j].msgId, blocking) == Settled
    ensures k < BootSent(replies, blocking)
    decreases k
  {
    if k > 1 {
      BootSentAtLeast(replies[1..], blocking, k - 1);
    }
  }

  lemma {:induction false} BootSentAllSettled(replies: seq<Reply>, blocking: bool)
    requires forall j :: 0 <= j < |replies| ==> WaitIdle(replies[j].trace, replies[j].msgId, blocking) == Settled
    ensures BootSent(replies, blocking) == |replies|
    decreases |replies|
  {
    if replies != [] {
      BootSentAllSettled(replies[1..], blocking);
    }
  }

  /** A command that does not settle is the last one sent. */
  lemma {:induction false} BootSentStops(replies: seq<Reply>, blocking: bool, k: nat)
    requires k < |replies|
    requires forall j :: 0 <= j < k ==> WaitIdle(replies[j].trace, replies[j].msgId, blocking) == Settled
    requires WaitIdle(replies[k].trace, replies[k].msgId, blocking) != Settled
    ensures BootSent(replies, blocking) == k + 1
    decreases k
  {
    if k > 0 {
      BootSentStops(replies[1..], blocking, k - 1);
    }
  }
}
