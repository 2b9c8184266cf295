/** The older sandbox of jupyter.py: one kernel and one blocking client
    per session id, created on first use and bootstrapped by running the
    three setup commands through `execute_code` itself, so that creating
    a session and executing code call each other.

    Kernel processes and clients are opaque: a client is a handle number,
    and every command sent to a kernel is recorded in `submitted`. */
module LegacySandbox {
  import opened Common
  import opened Iopub
  import PyLiteral
  import Sandbox

  /** One entry of `self.sessions`: the client handle and `last_used`. */
  datatype LegacySession = LegacySession(client: nat, lastUsed: real)

  /** What the kernel and the clock contribute to one `execute_code`
      call: the clock when the session is looked up, whether a new
      client becomes ready, one nested script per bootstrap command (used
      only when the session is new), the clock after submission, and the
      polls of the drain loop. */
  datatype LegacyScript = LegacyScript(
    now: real,
    clientReady: bool,
    boot: seq<LegacyScript>,
    start: real,
    polls: seq<Poll>)

  /** `wait_for_ready` raised, or a reply lacked a key the loop reads. */
  datatype LegacyError = ClientNotReady | MissingKey(key: string)

  /** The bootstrap commands run with a 120-second timeout. */
  const BootTimeout: int := 120

  predicate Raises(s: LegacyScript)
  {
    LegacyDrain(s.polls, s.start, BootTimeout).ending.Raised?
  }

  /** Index of the first bootstrap command whose drain raises, or `|boot|`. */
  function FirstRaising(boot: seq<LegacyScript>, i: nat): (k: nat)
    requires i <= |boot|
    ensures i <= k <= |boot|
    ensures forall j :: i <= j < k ==> !Raises(boot[j])
    ensures k < |boot| ==> Raises(boot[k])
    decreases |boot| - i
  {
    if i == |boot| then i else if Raises(boot[i]) then i else FirstRaising(boot, i + 1)
  }

  /** How many bootstrap commands are sent before one raises. */
  function BootAttempted(boot: seq<LegacyScript>): (n: nat)
    ensures n <= |boot|
    ensures boot != [] ==> n >= 1
  {
    var k := FirstRaising(boot, 0);
    if k < |boot| then k + 1 else k
  }

  /** The error a raising bootstrap command propagates, if any. */
  function BootError(boot: seq<LegacyScript>): Option<LegacyError>
  {
    var k := FirstRaising(boot, 0);
    if k < |boot| then Some(MissingKey(LegacyDrain(boot[k].polls, boot[k].start, BootTimeout).ending.key))
    else None
  }

  class LegacyJupyterSandbox {
    const workingDir: string
    var sessions: map<string, LegacySession>
    var submitted: seq<Sandbox.Submission>
    var clients: nat

    constructor (workingDir: string)
      ensures this.workingDir == workingDir
      ensures sessions == map[] && submitted == [] && clients == 0
    {
      this.workingDir := workingDir;
      sessions := map[];
      submitted := [];
      clients := 0;
    }

    /** `get_or_create_session`. A known id only has `last_used` refreshed.
        A new id gets a client (nothing is registered when it does not
        become ready), is registered, and is bootstrapped by the three
        commands in order; each nested `execute_code` refreshes `last_used`
        again, and a `KeyError` in one of them propagates and skips the
        rest, leaving the entry registered. */
    method GetOrCreateSession(sessionId: string, script: LegacyScript) returns (err: Option<LegacyError>)
      requires sessionId !in sessions ==> |script.boot| == 3
      modifies this`sessions, this`submitted, this`clients
      ensures sessionId in old(sessions) ==>
        err.None? && sessions == old(sessions)[sessionId := old(sessions[sessionId]).(lastUsed := script.now)] &&
        submitted == old(submitted) && clients == old(clients)
      ensures sessionId !in old(sessions) && !script.clientReady ==>
        err == Some(ClientNotReady) && sessions == old(sessions) && submitted == old(submitted)
      ensures sessionId !in old(sessions) && script.clientReady ==>
        err == BootError(script.boot) &&
        sessions == old(sessions)[sessionId :=
          LegacySession(old(clients), script.boot[BootAttempted(script.boot) - 1].now)] &&
        submitted == old(submitted) + Sandbox.Submissions(sessionId,
          PyLiteral.LegacyBootstrapCommands(workingDir)[..BootAttempted(script.boot)])
      decreases script, 1
    {
      if sessionId in sessions {
        sessions := sessions[sessionId := sessions[sessionId].(lastUsed := script.now)];
        return None;
      }
      if !script.clientReady {
        return Some(ClientNotReady);
      }
      sessions := sessions[sessionId := LegacySession(clients, script.now)];
      clients := clients + 1;
      err := Bootstrap(sessionId, script);
    }

    /** The three bootstrap calls `self.execute_code(cmd, session_id, ...)`
        of a freshly registered entry, in order, until one of them raises. */
    method Bootstrap(sessionId: string, script: LegacyScript) returns (err: Option<LegacyError>)
      requires sessionId in sessions && |script.boot| == 3
      modifies this`sessions, this`submitted, this`clients
      ensures err == BootError(script.boot)
      ensures sessions == old(sessions)[sessionId :=
        old(sessions[sessionId]).(lastUsed := script.boot[BootAttempted(script.boot) - 1].now)]
      ensures submitted == old(submitted) + Sandbox.Submissions(sessionId,
        PyLiteral.LegacyBootstrapCommands(workingDir)[..BootAttempted(script.boot)])
      decreases script, 0
    {
      var cmds := PyLiteral.LegacyBootstrapCommands(workingDir);
      var boot := script.boot;
      assert boot[0] in boot && boot[1] in boot && boot[2] in boot;
      for k := 0 to 3
        invariant k <= FirstRaising(boot, 0)
        invariant sessionId in sessions
        invariant k > 0 ==> sessions == old(sessions)[sessionId := old(sessions[sessionId]).(lastUsed := boot[k - 1].now)]
        invariant k == 0 ==> sessions == old(sessions)
        invariant submitted == old(submitted) + Sandbox.Submissions(sessionId, cmds[..k])
      {
        assert boot[k] < script;
        var r := ExecuteCode(cmds[k], sessionId, "", BootTimeout, boot[k]);
        assert cmds[..k + 1] == cmds[..k] + [cmds[k]];
        Sandbox.SubmissionsAppend(sessionId, cmds[..k], cmds[k]);
        if r.Failure? {
          assert FirstRaising(boot, 0) == k by {
            FirstRaisingAt(boot, 0, k);
          }
          return Some(r.error);
        }
        FirstRaisingPast(boot, 0, k);
      }
      err := None;
    }

    /** `execute_code`: the session is looked up or created, the code is
        sent, and the replies are drained by the older loop; a missing key
        in a reply, or one raised while bootstrapping, becomes the error.
        Otherwise the outputs are the drain's, stamped with the ids. */
    method ExecuteCode(code: string, sessionId: string, cellId: string, timeout: int, script: LegacyScript)
      returns (res: Result<seq<Item>, LegacyError>)
      requires sessionId !in sessions ==> |script.boot| == 3
      modifies this`sessions, this`submitted, this`clients
      ensures sessionId in old(sessions) ==>
        sessions == old(sessions)[sessionId := old(sessions[sessionId]).(lastUsed := script.now)] &&
        submitted == old(submitted) + [Sandbox.Submission(sessionId, code)]
      ensures sessionId !in old(sessions) && !script.clientReady ==>
        res == Failure(ClientNotReady) && sessions == old(sessions) && submitted == old(submitted)
      ensures sessionId !in old(sessions) && script.clientReady ==>
        sessions == old(sessions)[sessionId :=
          LegacySession(old(clients), script.boot[BootAttempted(script.boot) - 1].now)] &&
        submitted == old(submitted) + Sandbox.Submissions(sessionId,
          PyLiteral.LegacyBootstrapCommands(workingDir)[..BootAttempted(script.boot)]) +
          (if BootError(script.boot).Some? then [] else [Sandbox.Submission(sessionId, code)])
      ensures sessionId !in old(sessions) && script.clientReady && BootError(script.boot).Some? ==>
        res == Failure(BootError(script.boot).value)
      ensures (sessionId in old(sessions) || (script.clientReady && BootError(script.boot).None?)) ==>
        res == match LegacyDrain(script.polls, script.start, timeout).ending
               case Raised(key) => Failure(MissingKey(key))
               case _ => Success(Stamped(Outputs(LegacyDrain(script.polls, script.start, timeout), timeout),
                                         cellId, sessionId))
      decreases script, 2
    {
      var err := GetOrCreateSession(sessionId, script);
      if err.Some? {
        return Failure(err.value);
      }
      submitted := submitted + [Sandbox.Submission(sessionId, code)];
      var outputs, ending := LegacyCollectOutputs(script.polls, script.start, timeout);
      if ending.Raised? {
        return Failure(MissingKey(ending.key));
      }
      var items := StampOutputs(outputs, cellId, sessionId);
      res := Success(items);
    }

    /** `close_session`: the entry is removed; an absent id is a no-op. */
    method CloseSession(sessionId: string)
      modifies this`sessions
      ensures sessions == old(sessions) - {sessionId}
    {
      if sessionId in sessions {
        sessions := sessions - {sessionId};
      }
    }

    /** `close_all_sessions`. */
    method CloseAllSessions()
      modifies this`sessions
      ensures sessions == map[]
    {
      var ids := sessions.Keys;
      while ids != {}
        invariant sessions.Keys == ids
        decreases ids
      {
        var sid :| sid in ids;
        CloseSession(sid);
        ids := ids - {sid};
      }
    }

    /** `cleanup_inactive_sessions`: the entries idle for longer than
        `maxIdleTime` at `now` are closed, the rest kept unchanged. */
    method CleanupInactiveSessions(maxIdleTime: int, now: real)
      modifies this`sessions
      ensures sessions == map sid | sid in old(sessions) && !(now - old(sessions)[sid].lastUsed > maxIdleTime as real)
                                  :: old(sessions)[sid]
    {
      var ids := sessions.Keys;
      ghost var all := ids;
      while ids != {}
        invariant ids <= all
        invariant sessions == old(sessions) - set sid | sid in all - ids && now - old(sessions)[sid].lastUsed > maxIdleTime as real
        decreases ids
      {
        var sid :| sid in ids;
        if now - sessions[sid].lastUsed > maxIdleTime as real {
          CloseSession(sid);
        }
        ids := ids - {sid};
      }
    }
  }

  lemma FirstRaisingAt(boot: seq<LegacyScript>, i: nat, k: nat)
    requires i <= k < |boot|
    requires forall j :: i <= j < k ==> !Raises(boot[j])
    requires Raises(boot[k])
    ensures FirstRaising(boot, i) == k
    decreases k - i
  {
    if i < k {
      FirstRaisingAt(boot, i + 1, k);
    }
  }

  lemma FirstRaisingPast(boot: seq<LegacyScript>, i: nat, k: nat)
    requires i <= k < |boot|
    requires k <= FirstRaising(boot, i)
    requires !Raises(boot[k])
    ensures k + 1 <= FirstRaising(boot, i)
  {
  }
}
