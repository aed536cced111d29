/**
 * The PAM session pipeline: open a transaction, authenticate, check the
 * account, establish credentials and open the session, answering module
 * prompts through a conversation callback that holds the password only
 * until authentication has succeeded.
 *
 * The PAM library itself is an oracle: each step's status code and the
 * conversation rounds a module starts during that step are inputs, as are
 * the exported environment list and the name-service user record.
 */
module Pam {
  import opened Wrappers

  // Status codes and message styles of Linux-PAM.
  const PAM_SUCCESS: int := 0
  const PAM_BUF_ERR: int := 5
  const PAM_CRED_UNAVAIL: int := 15
  const PAM_CRED_EXPIRED: int := 16
  const PAM_CONV_ERR: int := 19

  const PAM_PROMPT_ECHO_OFF: int := 1
  const PAM_PROMPT_ECHO_ON: int := 2
  const PAM_ERROR_MSG: int := 3
  const PAM_TEXT_INFO: int := 4

  /** Every way opening a session can fail. `CredUninitialized` is declared but never produced. */
  datatype AuthenticationError =
    | PamService(service: string)
    | AccountValidation
    | HomeDirInvalidUtf8
    | ShellInvalidUtf8
    | UsernameNotFound
    | SessionOpen
    | CredUnavailable
    | CredUninitialized
    | CredExpired
    | Other(code: int)

  // ---------------------------------------------------------------------------
  // Conversation callback
  // ---------------------------------------------------------------------------

  /** One message a PAM module hands to the conversation. */
  datatype Message = Message(style: int, text: string)

  /** One answer: `resp` None is a null response pointer. */
  datatype Response = Response(resp: Option<string>, retcode: int)

  /**
   * What one conversation call ends in: a full response array, a failure
   * status with no responses handed back, or a panic (the password cannot be
   * turned into a C string because it holds a NUL byte; a panic inside the
   * callback aborts the process).
   */
  datatype ConvOutcome = Replied(responses: seq<Response>) | ConvFailed(status: int) | ConvPanicked

  predicate IsPrompt(style: int) {
    style == PAM_PROMPT_ECHO_OFF || style == PAM_PROMPT_ECHO_ON
  }

  predicate IsNotice(style: int) {
    style == PAM_ERROR_MSG || style == PAM_TEXT_INFO
  }

  predicate HasNul(s: string) {
    '\0' in s
  }

  /** The held secret cannot be copied into a C string. */
  predicate SecretUnencodable(secret: Option<string>) {
    secret.Some? && HasNul(secret.value)
  }

  /** A message the callback can answer without giving up. */
  predicate Answerable(m: Message, secret: Option<string>) {
    (IsPrompt(m.style) && !SecretUnencodable(secret)) || IsNotice(m.style)
  }

  /** The answer the callback gives to an answerable message. */
  function ExpectedResponse(m: Message, secret: Option<string>): Response {
    if IsPrompt(m.style) then Response(secret, 0) else Response(None, 0)
  }

  /** Message `i` is the first one the callback cannot answer. */
  ghost predicate FirstUnanswerable(msgs: seq<Message>, secret: Option<string>, i: int) {
    0 <= i < |msgs| && !Answerable(msgs[i], secret)
    && forall j :: 0 <= j < i ==> Answerable(msgs[j], secret)
  }

  /** Answers the messages in order, stopping at the first one it cannot answer. */
  function AnswerAll(msgs: seq<Message>, secret: Option<string>): (r: ConvOutcome)
    ensures r.Replied? <==> forall i :: 0 <= i < |msgs| ==> Answerable(msgs[i], secret)
    ensures r.Replied? ==> |r.responses| == |msgs|
    ensures r.Replied? ==> forall i :: 0 <= i < |msgs| ==> r.responses[i] == ExpectedResponse(msgs[i], secret)
    ensures r.ConvFailed? ==> r.status == PAM_CONV_ERR
    ensures r.ConvFailed? <==> exists i :: FirstUnanswerable(msgs, secret, i) && !IsPrompt(msgs[i].style)
    ensures r.ConvPanicked? <==> exists i :: FirstUnanswerable(msgs, secret, i) && IsPrompt(msgs[i].style)
  {
    if |msgs| == 0 then Replied([])
    else
      var m := msgs[0];
      if IsPrompt(m.style) && SecretUnencodable(secret) then
        assert FirstUnanswerable(msgs, secret, 0);
        ConvPanicked
      else if !IsPrompt(m.style) && !IsNotice(m.style) then
        assert FirstUnanswerable(msgs, secret, 0);
        ConvFailed(PAM_CONV_ERR)
      else
        var rest := AnswerAll(msgs[1..], secret);
        assert forall i :: FirstUnanswerable(msgs[1..], secret, i) <==> FirstUnanswerable(msgs, secret, i + 1);
        assert forall i :: FirstUnanswerable(msgs, secret, i) ==> i > 0;
        match rest
        case Replied(rs) => Replied([ExpectedResponse(m, secret)] + rs)
        case _ => rest
  }

  /**
   * The conversation callback: the response array is allocated first
   * (`allocOk` is the allocator's answer), then every message is answered.
   */
  function Conversation(msgs: seq<Message>, secret: Option<string>, allocOk: bool): (r: ConvOutcome)
    ensures !allocOk ==> r == ConvFailed(PAM_BUF_ERR)
    ensures r.Replied? ==> |r.responses| == |msgs|
    ensures r.Replied? ==> forall i :: 0 <= i < |msgs| ==> r.responses[i].retcode == 0
    ensures r.Replied? ==> forall i :: 0 <= i < |msgs| ==>
      r.responses[i].resp == (if IsPrompt(msgs[i].style) then secret else None)
    ensures allocOk ==> (r.Replied? <==> forall i :: 0 <= i < |msgs| ==> Answerable(msgs[i], secret))
    ensures allocOk && (exists i :: FirstUnanswerable(msgs, secret, i) && !IsPrompt(msgs[i].style)) ==>
      r == ConvFailed(PAM_CONV_ERR)
    ensures r.ConvPanicked? ==> SecretUnencodable(secret)
  {
    if !allocOk then ConvFailed(PAM_BUF_ERR) else AnswerAll(msgs, secret)
  }

  // ---------------------------------------------------------------------------
  // Exported environment
  // ---------------------------------------------------------------------------

  /** The index of the first `c` in `s`. */
  function FindChar(s: string, c: char): (r: Option<nat>)
    ensures r.Some? ==> r.value < |s| && s[r.value] == c && c !in s[..r.value]
    ensures r.None? ==> c !in s
  {
    if |s| == 0 then None
    else if s[0] == c then Some(0)
    else
      match FindChar(s[1..], c)
      case Some(i) =>
        assert s[..i + 1] == [s[0]] + s[1..][..i];
        Some(i + 1)
      case None =>
        assert s == [s[0]] + s[1..];
        None
  }

  /** Splits an entry at its first '=' into key and value. */
  function SplitOnce(s: string): (r: Option<(string, string)>)
    ensures r.Some? ==> '=' !in r.value.0 && s == r.value.0 + "=" + r.value.1
    ensures r.None? <==> '=' !in s
  {
    match FindChar(s, '=')
    case Some(i) =>
      assert s == s[..i] + "=" + s[i + 1..];
      Some((s[..i], s[i + 1..]))
    case None => None
  }

  /** Joining a key without '=' to any value and splitting again gives the pair back. */
  lemma SplitOnceOfJoin(k: string, v: string)
    requires '=' !in k
    ensures SplitOnce(k + "=" + v) == Some((k, v))
  {
    var s := k + "=" + v;
    var r := SplitOnce(s);
    assert s[|k|] == '=' && s[..|k|] == k;
    assert r.Some?;
    var (k', v') := r.value;
    assert s == k' + "=" + v';
    assert |k'| == |k|;
    assert k' == s[..|k|] == k;
    assert v' == s[|k| + 1..] == v;
  }

  /** Entry `e` binds key `k`. */
  predicate DefinesKey(e: string, k: string) {
    SplitOnce(e).Some? && SplitOnce(e).value.0 == k
  }

  /** Entry `e` binds key `k` to value `v`. */
  predicate Binds(e: string, k: string, v: string) {
    SplitOnce(e) == Some((k, v))
  }

  /**
   * Harvests the exported `K=V` list into a map. Entries without '=' are
   * dropped; a later entry for the same key overwrites an earlier one.
   */
  function HarvestEnv(entries: seq<string>): (env: map<string, string>)
    ensures forall k :: k in env <==> exists i :: 0 <= i < |entries| && DefinesKey(entries[i], k)
  {
    if |entries| == 0 then map[]
    else
      var n := |entries| - 1;
      var m := HarvestEnv(entries[..n]);
      assert forall i :: 0 <= i < n ==> entries[..n][i] == entries[i];
      match SplitOnce(entries[n])
      case None => m
      case Some((k0, v0)) => m[k0 := v0]
  }

  /** Entry `i` is the last one of `entries` that binds `k`, and it binds it to `v`. */
  ghost predicate LastBinding(entries: seq<string>, k: string, v: string, i: int) {
    && 0 <= i < |entries|
    && Binds(entries[i], k, v)
    && forall j :: i < j < |entries| ==> !DefinesKey(entries[j], k)
  }

  /** Every harvested value comes from the last entry that binds its key. */
  lemma {:induction false} HarvestEnvLastWins(entries: seq<string>, k: string)
    ensures k in HarvestEnv(entries) ==> exists i :: LastBinding(entries, k, HarvestEnv(entries)[k], i)
  {
    if k in HarvestEnv(entries) {
      var n := |entries| - 1;
      var prefix := entries[..n];
      var env := HarvestEnv(entries);
      var m := HarvestEnv(prefix);
      var last := SplitOnce(entries[n]);
      if last.Some? && last.value.0 == k {
        assert env == m[k := last.value.1];
        assert LastBinding(entries, k, env[k], n);
      } else {
        assert env == m || (last.Some? && env == m[last.value.0 := last.value.1]);
        assert k in m && m[k] == env[k];
        HarvestEnvLastWins(prefix, k);
        var i :| LastBinding(prefix, k, m[k], i);
        assert prefix[i] == entries[i];
        assert !DefinesKey(entries[n], k);
        forall j | i < j < |entries|
          ensures !DefinesKey(entries[j], k)
        {
          if j < n {
            assert !DefinesKey(prefix[j], k);
            assert prefix[j] == entries[j];
          } else {
            assert j == n;
          }
        }
        assert LastBinding(entries, k, env[k], i);
      }
    }
  }

  // ---------------------------------------------------------------------------
  // The session pipeline
  // ---------------------------------------------------------------------------

  /** The PAM calls that return a status, in the order they are made. */
  datatype Step = Start | Authenticate | AcctMgmt | SetCred | OpenSess

  const AllSteps: seq<Step> := [Start, Authenticate, AcctMgmt, SetCred, OpenSess]

  /** One call of the conversation by a module, with the allocator's answer. */
  datatype ConvRound = ConvRound(msgs: seq<Message>, allocOk: bool)

  /** The oracle for one PAM step: the conversations it starts and the status it returns. */
  datatype StepOracle = StepOracle(rounds: seq<ConvRound>, status: int)

  /** The name-service record; a None path is one that is not valid UTF-8. */
  datatype UserRecord = UserRecord(
    uid: nat, primaryGid: nat, groups: Option<seq<nat>>, homeDir: Option<string>, shell: Option<string>)

  /** Everything the foreign side answers during one `open_session`. */
  datatype PamOracle = PamOracle(
    startStatus: int,
    handleNonNull: bool,
    auth: StepOracle,
    acct: StepOracle,
    cred: StepOracle,
    session: StepOracle,
    envList: seq<string>,
    user: Option<UserRecord>)

  /** The authenticator: the PAM handle, the last status and the shared conversation data. */
  datatype Authenticator = Authenticator(handleNonNull: bool, lastStatus: int, secret: Option<string>)

  /** The authenticated identity; it owns the authenticator and with it the session. */
  datatype AuthUserInfo = AuthUserInfo(
    authenticator: Authenticator,
    username: string,
    uid: nat,
    primaryGid: nat,
    allGids: seq<nat>,
    homeDir: string,
    shell: string,
    pamEnv: map<string, string>)

  /** One conversation call as it happened during a step. */
  datatype Exchange = Exchange(step: Step, msgs: seq<Message>, outcome: ConvOutcome)

  /** `open_session` either returns, or the process aborts on a panic in the callback. */
  datatype Outcome = Returned(result: Result<AuthUserInfo, AuthenticationError>) | Aborted

  /**
   * A run of `open_session`: the status-returning PAM calls made, the
   * conversations, the authenticator (None when the call failed before the
   * transaction was started) and the outcome.
   */
  datatype PamRun = PamRun(
    calls: seq<Step>, exchanges: seq<Exchange>, authenticator: Option<Authenticator>, outcome: Outcome)

  function StatusOf(o: PamOracle, s: Step): int {
    match s
    case Start => o.startStatus
    case Authenticate => o.auth.status
    case AcctMgmt => o.acct.status
    case SetCred => o.cred.status
    case OpenSess => o.session.status
  }

  function RoundsOf(o: PamOracle, s: Step): seq<ConvRound> {
    match s
    case Start => []
    case Authenticate => o.auth.rounds
    case AcctMgmt => o.acct.rounds
    case SetCred => o.cred.rounds
    case OpenSess => o.session.rounds
  }

  /** One round of a step's conversation, answered with the secret as currently held. */
  function RoundExchange(step: Step, round: ConvRound, secret: Option<string>): Exchange {
    Exchange(step, round.msgs, Conversation(round.msgs, secret, round.allocOk))
  }

  /**
   * Runs the conversation rounds of one step with the secret as currently
   * held; the boolean is true when a round panicked, which ends everything.
   */
  function RunRounds(step: Step, rounds: seq<ConvRound>, secret: Option<string>): (r: (seq<Exchange>, bool))
    ensures |r.0| <= |rounds|
    ensures forall i :: 0 <= i < |r.0| ==> r.0[i] == RoundExchange(step, rounds[i], secret)
    ensures r.1 <==> |r.0| > 0 && r.0[|r.0| - 1].outcome.ConvPanicked?
    ensures !r.1 ==> |r.0| == |rounds|
    ensures forall i :: 0 <= i < |r.0| - 1 ==> !r.0[i].outcome.ConvPanicked?
  {
    if |rounds| == 0 then ([], false)
    else
      var e := RoundExchange(step, rounds[0], secret);
      if e.outcome.ConvPanicked? then ([e], true)
      else
        var rest := RunRounds(step, rounds[1..], secret);
        ([e] + rest.0, rest.1)
  }

  /** The statuses `pam_end` receives when the authenticator is dropped: once, and only for a live handle. */
  function Teardown(a: Option<Authenticator>): (ends: seq<int>)
    ensures |ends| <= 1
    ensures |ends| == 1 <==> a.Some? && a.value.handleNonNull
    ensures |ends| == 1 ==> ends[0] == a.value.lastStatus
  {
    if a.Some? && a.value.handleNonNull then [a.value.lastStatus] else []
  }

  /** A completed conversation answered every prompt with `secret`. */
  ghost predicate AnswersPromptsWith(e: Exchange, secret: Option<string>) {
    e.outcome.Replied? ==> forall j :: 0 <= j < |e.msgs| && IsPrompt(e.msgs[j].style) ==>
      j < |e.outcome.responses| && e.outcome.responses[j].resp == secret
  }

  /** Identity lookup after the session is open; the authenticator moves into the result. */
  function LookupUser(username: string, a: Authenticator, env: map<string, string>, user: Option<UserRecord>)
    : (r: Result<AuthUserInfo, AuthenticationError>)
    ensures r.Ok? <==> user.Some? && user.value.homeDir.Some? && user.value.shell.Some?
    ensures user.None? ==> r == Err(UsernameNotFound)
    ensures user.Some? && user.value.homeDir.None? ==> r == Err(HomeDirInvalidUtf8)
    ensures user.Some? && user.value.homeDir.Some? && user.value.shell.None? ==> r == Err(ShellInvalidUtf8)
    ensures r.Ok? ==> var u := user.value;
      r.value == AuthUserInfo(a, username, u.uid, u.primaryGid, u.groups.GetOr([]), u.homeDir.value, u.shell.value, env)
  {
    match user
    case None => Err(UsernameNotFound)
    case Some(u) =>
      if u.homeDir.None? then Err(HomeDirInvalidUtf8)
      else if u.shell.None? then Err(ShellInvalidUtf8)
      else Ok(AuthUserInfo(a, username, u.uid, u.primaryGid, u.groups.GetOr([]), u.homeDir.value, u.shell.value, env))
  }

  /** The error a failed `pam_setcred` maps to. */
  function SetCredError(status: int): (e: AuthenticationError)
    ensures status == PAM_CRED_UNAVAIL ==> e == CredUnavailable
    ensures status == PAM_CRED_EXPIRED ==> e == CredExpired
    ensures status != PAM_CRED_UNAVAIL && status != PAM_CRED_EXPIRED ==> e == Other(status)
  {
    if status == PAM_CRED_UNAVAIL then CredUnavailable
    else if status == PAM_CRED_EXPIRED then CredExpired
    else Other(status)
  }

  /** The error a failed step maps to. */
  function StepError(step: Step, status: int, service: string): (e: AuthenticationError)
    ensures step == Start ==> e == PamService(service)
    ensures step == Authenticate || step == AcctMgmt ==> e == AccountValidation
    ensures step == SetCred ==> e == SetCredError(status)
    ensures step == OpenSess ==> e == SessionOpen
  {
    match step
    case Start => PamService(service)
    case Authenticate => AccountValidation
    case AcctMgmt => AccountValidation
    case SetCred => SetCredError(status)
    case OpenSess => SessionOpen
  }

  /** What the conversation holds while `step` runs. */
  function SecretDuring(step: Step, password: string): Option<string> {
    if step == Authenticate then Some(password) else None
  }

  /** The state between two PAM calls. */
  datatype Progress = Progress(calls: seq<Step>, exchanges: seq<Exchange>, auth: Authenticator)

  /** Between calls: every call so far succeeded, and the password is held only before authentication. */
  ghost predicate Between(o: PamOracle, password: string, p: Progress) {
    && |p.calls| <= |AllSteps|
    && p.calls == AllSteps[..|p.calls|]
    && (forall i :: 0 <= i < |p.calls| ==> StatusOf(o, p.calls[i]) == PAM_SUCCESS)
    && p.auth == Authenticator(o.handleNonNull, PAM_SUCCESS, if |p.calls| >= 2 then None else Some(password))
    && (forall i :: 0 <= i < |p.exchanges| ==>
          p.exchanges[i].step in p.calls && p.exchanges[i].step != Start
          && AnswersPromptsWith(p.exchanges[i], SecretDuring(p.exchanges[i].step, password)))
  }

  /** The exchanges of a run respect the secret's lifetime. */
  ghost predicate ExchangesRespectSecret(run: PamRun, password: string) {
    forall i :: 0 <= i < |run.exchanges| ==>
      run.exchanges[i].step in run.calls && run.exchanges[i].step != Start
      && AnswersPromptsWith(run.exchanges[i], SecretDuring(run.exchanges[i].step, password))
  }

  /** The run has stopped at the first step whose status is not PAM_SUCCESS. */
  ghost predicate FailClosed(o: PamOracle, run: PamRun) {
    && |run.calls| <= |AllSteps|
    && run.calls == AllSteps[..|run.calls|]
    && (forall i :: 0 <= i < |run.calls| - 1 ==> StatusOf(o, run.calls[i]) == PAM_SUCCESS)
  }

  /** The identity lookup once all five calls succeeded. */
  function Finish(username: string, o: PamOracle, p: Progress): PamRun {
    var r := LookupUser(username, p.auth, HarvestEnv(o.envList), o.user);
    PamRun(p.calls, p.exchanges, if r.Ok? then None else Some(p.auth), Returned(r))
  }

  /** The conversations of one step, each answering prompts with the secret held during it. */
  lemma RoundsAnswer(step: Step, rounds: seq<ConvRound>, secret: Option<string>)
    ensures var ex := RunRounds(step, rounds, secret).0;
      forall i :: 0 <= i < |ex| ==> ex[i].step == step && AnswersPromptsWith(ex[i], secret)
  {
  }

  /** The secret the conversation holds during the next step is the one that step should see. */
  lemma SecretMatches(o: PamOracle, password: string, p: Progress)
    requires Between(o, password, p) && |p.calls| < |AllSteps|
    ensures var step := AllSteps[|p.calls|];
      RoundsOf(o, step) != [] ==> p.auth.secret == SecretDuring(step, password)
  {
  }

  /** The exchanges of the next step, added to those so far, still respect the secret. */
  lemma ExchangesExtend(o: PamOracle, password: string, p: Progress, calls: seq<Step>, ex: seq<Exchange>)
    requires Between(o, password, p) && |p.calls| < |AllSteps|
    requires calls == p.calls + [AllSteps[|p.calls|]]
    requires forall i :: 0 <= i < |ex| ==>
      ex[i].step == AllSteps[|p.calls|] && AnswersPromptsWith(ex[i], SecretDuring(AllSteps[|p.calls|], password))
    requires ex != [] ==> AllSteps[|p.calls|] != Start
    ensures forall i :: 0 <= i < |p.exchanges + ex| ==>
      (p.exchanges + ex)[i].step in calls && (p.exchanges + ex)[i].step != Start
      && AnswersPromptsWith((p.exchanges + ex)[i], SecretDuring((p.exchanges + ex)[i].step, password))
  {
    var all := p.exchanges + ex;
    forall i | 0 <= i < |all|
      ensures all[i].step in calls && all[i].step != Start
        && AnswersPromptsWith(all[i], SecretDuring(all[i].step, password))
    {
      if i < |p.exchanges| {
        assert all[i] == p.exchanges[i];
      } else {
        assert all[i] == ex[i - |p.exchanges|];
      }
    }
  }

  /** The state after the next step succeeded with exchanges `ex`: the password is dropped after authentication. */
  function Advance(o: PamOracle, password: string, p: Progress, ex: seq<Exchange>): (next: Progress)
    requires Between(o, password, p) && |p.calls| < |AllSteps|
    requires StatusOf(o, AllSteps[|p.calls|]) == PAM_SUCCESS
    requires forall i :: 0 <= i < |ex| ==>
      ex[i].step == AllSteps[|p.calls|] && AnswersPromptsWith(ex[i], SecretDuring(AllSteps[|p.calls|], password))
    requires ex != [] ==> AllSteps[|p.calls|] != Start
    ensures Between(o, password, next)
    ensures next.calls == p.calls + [AllSteps[|p.calls|]] && next.exchanges == p.exchanges + ex
    ensures next.auth == (var a := p.auth.(lastStatus := PAM_SUCCESS);
                          if AllSteps[|p.calls|] == Authenticate then a.(secret := None) else a)
  {
    var step := AllSteps[|p.calls|];
    var calls := p.calls + [step];
    assert calls == AllSteps[..|calls|];
    ExchangesExtend(o, password, p, calls, ex);
    var a := p.auth.(lastStatus := PAM_SUCCESS);
    Progress(calls, p.exchanges + ex, if step == Authenticate then a.(secret := None) else a)
  }

  /** The run that ends at the next step, because its conversation panicked or its status is a failure. */
  function Stop(password: string, service: string, o: PamOracle, p: Progress, rr: (seq<Exchange>, bool)): (run: PamRun)
    requires Between(o, password, p) && |p.calls| < |AllSteps|
    requires rr == RunRounds(AllSteps[|p.calls|], RoundsOf(o, AllSteps[|p.calls|]), p.auth.secret)
    requires rr.1 || StatusOf(o, AllSteps[|p.calls|]) != PAM_SUCCESS
    ensures FailClosed(o, run)
    ensures ExchangesRespectSecret(run, password)
    ensures run.calls == p.calls + [AllSteps[|p.calls|]]
    ensures run.outcome.Aborted? ==> AllSteps[|p.calls|] == Authenticate && HasNul(password)
  {
    var step := AllSteps[|p.calls|];
    var calls := p.calls + [step];
    assert calls == AllSteps[..|calls|];
    RoundsAnswer(step, RoundsOf(o, step), p.auth.secret);
    SecretMatches(o, password, p);
    ExchangesExtend(o, password, p, calls, rr.0);
    var ex := p.exchanges + rr.0;
    if rr.1 then
      assert p.auth.secret.Some?;
      PamRun(calls, ex, Some(p.auth), Aborted)
    else
      var a := p.auth.(lastStatus := StatusOf(o, step));
      PamRun(calls, ex, Some(a), Returned(Err(StepError(step, a.lastStatus, service))))
  }

  /**
   * Drives the remaining PAM calls in order. A panicking conversation ends
   * the run; a non-success status returns its mapped error; success of
   * `pam_authenticate` clears the password before the next call.
   */
  function Drive(username: string, password: string, service: string, o: PamOracle, p: Progress): (run: PamRun)
    requires Between(o, password, p)
    decreases |AllSteps| - |p.calls|
    ensures FailClosed(o, run)
    ensures p.calls <= run.calls
    ensures run.outcome.Aborted? ==> |run.calls| > 0 && run.calls[|run.calls| - 1] == Authenticate && HasNul(password)
  {
    if |p.calls| == |AllSteps| then Finish(username, o, p)
    else
      var step := AllSteps[|p.calls|];
      var rr := RunRounds(step, RoundsOf(o, step), p.auth.secret);
      if rr.1 || StatusOf(o, step) != PAM_SUCCESS then Stop(password, service, o, p, rr)
      else
        RoundsAnswer(step, RoundsOf(o, step), p.auth.secret);
        SecretMatches(o, password, p);
        Drive(username, password, service, o, Advance(o, password, p, rr.0))
  }

  /** Every conversation of a driven run answered prompts with the secret held during its step. */
  lemma {:induction false} DriveRespectsSecret(username: string, password: string, service: string, o: PamOracle, p: Progress)
    requires Between(o, password, p)
    decreases |AllSteps| - |p.calls|
    ensures ExchangesRespectSecret(Drive(username, password, service, o, p), password)
  {
    if |p.calls| < |AllSteps| {
      var step := AllSteps[|p.calls|];
      var rr := RunRounds(step, RoundsOf(o, step), p.auth.secret);
      if !rr.1 && StatusOf(o, step) == PAM_SUCCESS {
        RoundsAnswer(step, RoundsOf(o, step), p.auth.secret);
        SecretMatches(o, password, p);
        DriveRespectsSecret(username, password, service, o, Advance(o, password, p, rr.0));
      }
    }
  }

  /** What a failing run returns: the mapped error of the failing step, or the identity lookup after all five. */
  ghost predicate ErrorShape(username: string, service: string, o: PamOracle, run: PamRun) {
    && (run.outcome.Returned? && run.outcome.result.Err? ==> |run.calls| > 0 && run.authenticator.Some?)
    && (run.outcome.Returned? && run.outcome.result.Err? ==>
          var last := run.calls[|run.calls| - 1];
          || (StatusOf(o, last) != PAM_SUCCESS && run.outcome.result.error == StepError(last, StatusOf(o, last), service))
          || (run.calls == AllSteps && StatusOf(o, last) == PAM_SUCCESS))
    && (run.outcome.Returned? && run.calls == AllSteps && StatusOf(o, OpenSess) == PAM_SUCCESS ==>
          run.outcome.result
          == LookupUser(username, Authenticator(o.handleNonNull, PAM_SUCCESS, None), HarvestEnv(o.envList), o.user))
  }

  /** When a run succeeds: every remaining step succeeded, authentication did not abort, and the user was found. */
  ghost predicate SuccessShape(password: string, o: PamOracle, done: nat, run: PamRun) {
    && (run.outcome.Returned? && run.outcome.result.Ok? <==>
          && (forall i :: done <= i < |AllSteps| ==> StatusOf(o, AllSteps[i]) == PAM_SUCCESS)
          && (done <= 1 ==> !RunRounds(Authenticate, o.auth.rounds, Some(password)).1)
          && o.user.Some? && o.user.value.homeDir.Some? && o.user.value.shell.Some?)
    && (run.outcome.Returned? && run.outcome.result.Ok? ==> run.calls == AllSteps && run.authenticator.None?)
  }

  /** The authenticator left to be dropped: right handle, last status, and the password only before authentication. */
  ghost predicate AuthenticatorShape(password: string, o: PamOracle, run: PamRun) {
    && (run.authenticator.Some? ==> |run.calls| > 0 && run.authenticator.value.handleNonNull == o.handleNonNull)
    && (run.authenticator.Some? && run.outcome.Returned? ==>
          run.authenticator.value.lastStatus == StatusOf(o, run.calls[|run.calls| - 1]))
    && (run.authenticator.Some? ==> (run.authenticator.value.secret == None <==> |run.calls| >= 3))
    && (run.authenticator.Some? && run.authenticator.value.secret.Some? ==>
          run.authenticator.value.secret.value == password)
  }

  lemma {:induction false} DriveErrors(username: string, password: string, service: string, o: PamOracle, p: Progress)
    requires Between(o, password, p)
    decreases |AllSteps| - |p.calls|
    ensures ErrorShape(username, service, o, Drive(username, password, service, o, p))
  {
    if |p.calls| < |AllSteps| {
      var step := AllSteps[|p.calls|];
      var rr := RunRounds(step, RoundsOf(o, step), p.auth.secret);
      if !rr.1 && StatusOf(o, step) == PAM_SUCCESS {
        RoundsAnswer(step, RoundsOf(o, step), p.auth.secret);
        SecretMatches(o, password, p);
        DriveErrors(username, password, service, o, Advance(o, password, p, rr.0));
      }
    }
  }

  lemma {:induction false} DriveSuccess(username: string, password: string, service: string, o: PamOracle, p: Progress)
    requires Between(o, password, p)
    decreases |AllSteps| - |p.calls|
    ensures SuccessShape(password, o, |p.calls|, Drive(username, password, service, o, p))
  {
    if |p.calls| < |AllSteps| {
      var step := AllSteps[|p.calls|];
      var rr := RunRounds(step, RoundsOf(o, step), p.auth.secret);
      var done := |p.calls|;
      if done == 1 {
        assert rr == RunRounds(Authenticate, o.auth.rounds, Some(password));
      }
      if !rr.1 && StatusOf(o, step) == PAM_SUCCESS {
        RoundsAnswer(step, RoundsOf(o, step), p.auth.secret);
        SecretMatches(o, password, p);
        var next := Advance(o, password, p, rr.0);
        assert Drive(username, password, service, o, p) == Drive(username, password, service, o, next);
        DriveSuccess(username, password, service, o, next);
        assert (forall i :: done <= i < |AllSteps| ==> StatusOf(o, AllSteps[i]) == PAM_SUCCESS)
           <==> (forall i :: done + 1 <= i < |AllSteps| ==> StatusOf(o, AllSteps[i]) == PAM_SUCCESS);
      } else if rr.1 {
        assert done == 1;
      }
    }
  }

  lemma {:induction false} DriveAuthenticator(username: string, password: string, service: string, o: PamOracle, p: Progress)
    requires Between(o, password, p)
    decreases |AllSteps| - |p.calls|
    ensures AuthenticatorShape(password, o, Drive(username, password, service, o, p))
  {
    if |p.calls| < |AllSteps| {
      var step := AllSteps[|p.calls|];
      var rr := RunRounds(step, RoundsOf(o, step), p.auth.secret);
      if !rr.1 && StatusOf(o, step) == PAM_SUCCESS {
        RoundsAnswer(step, RoundsOf(o, step), p.auth.secret);
        SecretMatches(o, password, p);
        DriveAuthenticator(username, password, service, o, Advance(o, password, p, rr.0));
      }
    }
  }

  /**
   * `open_session`. A NUL byte in the user name or the service name fails
   * before anything is started; otherwise the five PAM calls are driven in
   * order and the first failure ends the run.
   *
   * On success the authenticator lives inside the returned identity, so the
   * run's own `authenticator` is None; on an error it is the one that is
   * dropped on return.
   */
  function OpenSession(username: string, password: string, service: string, o: PamOracle): (run: PamRun)
    ensures FailClosed(o, run)
    ensures ExchangesRespectSecret(run, password)
    ensures run.outcome.Aborted? ==> run.calls == [Start, Authenticate] && HasNul(password)
    ensures run.outcome.Returned? && run.outcome.result.Err? && 0 < |run.calls| < |AllSteps| ==>
      StatusOf(o, run.calls[|run.calls| - 1]) != PAM_SUCCESS
  {
    if HasNul(username) then PamRun([], [], None, Returned(Err(UsernameNotFound)))
    else if HasNul(service) then PamRun([], [], None, Returned(Err(PamService(service))))
    else
      var p0 := Progress([], [], Authenticator(o.handleNonNull, PAM_SUCCESS, Some(password)));
      DriveErrors(username, password, service, o, p0);
      DriveRespectsSecret(username, password, service, o, p0);
      Drive(username, password, service, o, p0)
  }
  /** Success needs every step, the user lookup and both paths, and then yields the looked-up identity. */
  lemma OpenSessionOk(username: string, password: string, service: string, o: PamOracle)
    ensures var run := OpenSession(username, password, service, o);
      run.outcome.Returned? && run.outcome.result.Ok? <==>
      && !HasNul(username) && !HasNul(service)
      && (forall s :: s in AllSteps ==> StatusOf(o, s) == PAM_SUCCESS)
      && !RunRounds(Authenticate, o.auth.rounds, Some(password)).1
      && o.user.Some? && o.user.value.homeDir.Some? && o.user.value.shell.Some?
    ensures var run := OpenSession(username, password, service, o);
      run.outcome.Returned? && run.outcome.result.Ok? ==>
      var info := run.outcome.result.value; var u := o.user.value;
      && run.authenticator.None?
      && info.authenticator == Authenticator(o.handleNonNull, PAM_SUCCESS, None)
      && info.username == username && info.uid == u.uid && info.primaryGid == u.primaryGid
      && info.allGids == u.groups.GetOr([]) && info.homeDir == u.homeDir.value && info.shell == u.shell.value
      && info.pamEnv == HarvestEnv(o.envList)
  {
    if !HasNul(username) && !HasNul(service) {
      var p0 := Progress([], [], Authenticator(o.handleNonNull, PAM_SUCCESS, Some(password)));
      DriveErrors(username, password, service, o, p0);
      DriveSuccess(username, password, service, o, p0);
    }
  }

  /**
   * Each failure maps onto its own error: NUL bytes before anything starts,
   * then the error of the first failing step (see `StepError`), then the
   * identity lookup once all five calls succeeded.
   */
  lemma OpenSessionErrors(username: string, password: string, service: string, o: PamOracle)
    ensures var run := OpenSession(username, password, service, o);
      HasNul(username) ==> run == PamRun([], [], None, Returned(Err(UsernameNotFound)))
    ensures var run := OpenSession(username, password, service, o);
      !HasNul(username) && HasNul(service) ==> run == PamRun([], [], None, Returned(Err(PamService(service))))
    ensures var run := OpenSession(username, password, service, o);
      run.outcome.Returned? && run.outcome.result.Err? && |run.calls| > 0
      && StatusOf(o, run.calls[|run.calls| - 1]) != PAM_SUCCESS ==>
      var last := run.calls[|run.calls| - 1];
      run.outcome.result.error == StepError(last, StatusOf(o, last), service)
    ensures var run := OpenSession(username, password, service, o);
      run.outcome.Returned? && run.calls == AllSteps && o.session.status == PAM_SUCCESS ==>
      run.outcome.result == LookupUser(username, Authenticator(o.handleNonNull, PAM_SUCCESS, None), HarvestEnv(o.envList), o.user)
  {
    if !HasNul(username) && !HasNul(service) {
      DriveErrors(username, password, service, o, Progress([], [], Authenticator(o.handleNonNull, PAM_SUCCESS, Some(password))));
    }
  }

  /**
   * The authenticator owns the handle on every error path, its last status is
   * that of the last PAM call, and the password is held until authentication
   * succeeds and dropped right after.
   */
  lemma OpenSessionAuthenticator(username: string, password: string, service: string, o: PamOracle)
    ensures var run := OpenSession(username, password, service, o);
      run.outcome.Returned? && run.outcome.result.Err? && |run.calls| > 0 ==> run.authenticator.Some?
    ensures var run := OpenSession(username, password, service, o);
      run.authenticator.Some? ==> |run.calls| > 0 && run.authenticator.value.handleNonNull == o.handleNonNull
    ensures var run := OpenSession(username, password, service, o);
      run.authenticator.Some? && run.outcome.Returned? ==>
      run.authenticator.value.lastStatus == StatusOf(o, run.calls[|run.calls| - 1])
    ensures var run := OpenSession(username, password, service, o);
      run.authenticator.Some? ==> (run.authenticator.value.secret == None <==> |run.calls| >= 3)
    ensures var run := OpenSession(username, password, service, o);
      run.authenticator.Some? && run.authenticator.value.secret.Some? ==> run.authenticator.value.secret.value == password
  {
    if !HasNul(username) && !HasNul(service) {
      var p0 := Progress([], [], Authenticator(o.handleNonNull, PAM_SUCCESS, Some(password)));
      DriveErrors(username, password, service, o, p0);
      DriveAuthenticator(username, password, service, o, p0);
    }
  }

  /** `pam_end` runs exactly once for a returned error with a live handle, with the last status. */
  lemma OpenSessionTeardown(username: string, password: string, service: string, o: PamOracle)
    ensures var run := OpenSession(username, password, service, o);
      run.outcome.Returned? && run.outcome.result.Err? && |run.calls| > 0 ==>
      Teardown(run.authenticator) == (if o.handleNonNull then [StatusOf(o, run.calls[|run.calls| - 1])] else [])
    ensures var run := OpenSession(username, password, service, o);
      run.outcome.Returned? && run.outcome.result.Ok? ==>
      Teardown(Some(run.outcome.result.value.authenticator)) == (if o.handleNonNull then [PAM_SUCCESS] else [])
  {
    OpenSessionOk(username, password, service, o);
    OpenSessionAuthenticator(username, password, service, o);
  }

  /** `CredUninitialized` is never produced. */
  lemma NeverCredUninitialized(username: string, password: string, service: string, o: PamOracle)
    ensures OpenSession(username, password, service, o).outcome != Returned(Err(CredUninitialized))
  {
    OpenSessionErrors(username, password, service, o);
    OpenSessionOk(username, password, service, o);
  }
}
