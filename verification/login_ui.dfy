/**
 * The login form's decision logic: moving the focus between the switcher
 * and the two input fields, the initial focus, what is remembered between
 * logins, and how the worker reacts to one terminal event.
 *
 * Drawing, the worker thread, the request channel and the widgets' own
 * editing are outside the model; what a widget does with a key is an
 * oracle answer.
 */
module LoginUi {
  import opened Wrappers
  import Pam
  import PostLogin

  datatype InputMode = Switcher | Username | Password | Normal

  /** Moves the focus forward; `skipSwitcher` is set while the switcher is hidden. */
  function Next(m: InputMode, skipSwitcher: bool): (r: InputMode)
    ensures m == Normal ==> r == (if skipSwitcher then Username else Switcher)
    ensures m == Switcher || m == Username ==> r == (if m == Switcher then Username else Password)
    ensures m == Password ==> r == Password
  {
    match m
    case Normal => if skipSwitcher then Username else Switcher
    case Switcher => Username
    case Username => Password
    case Password => Password
  }

  /** Moves the focus backward. */
  function Prev(m: InputMode, skipSwitcher: bool): (r: InputMode)
    ensures m == Normal || m == Switcher ==> r == Normal
    ensures m == Username ==> r == (if skipSwitcher then Normal else Switcher)
    ensures m == Password ==> r == Username
  {
    match m
    case Normal => Normal
    case Switcher => Normal
    case Username => if skipSwitcher then Normal else Switcher
    case Password => Username
  }

  /** A hidden switcher is never focused by moving, from any mode other than itself. */
  lemma SkipNeverFocusesSwitcher(m: InputMode)
    ensures Next(m, true) != Switcher
    ensures Prev(m, true) != Switcher
  {
  }

  /** Password is the end of the forward order and Normal the end of the backward order. */
  lemma FocusEnds(skip: bool)
    ensures Next(Password, skip) == Password
    ensures Prev(Normal, skip) == Normal
  {
  }

  /** The fields that can be entered at a given switcher state, in order. */
  function Chain(skipSwitcher: bool): seq<InputMode> {
    if skipSwitcher then [Normal, Username, Password] else [Normal, Switcher, Username, Password]
  }

  /** Next and Prev walk the same chain in opposite directions. */
  lemma NextPrevInverse(skip: bool)
    ensures forall i :: 0 <= i < |Chain(skip)| - 1 ==> Next(Chain(skip)[i], skip) == Chain(skip)[i + 1]
    ensures forall i :: 0 < i < |Chain(skip)| ==> Prev(Chain(skip)[i], skip) == Chain(skip)[i - 1]
    ensures forall m :: m != Password && m in Chain(skip) ==> Prev(Next(m, skip), skip) == m
    ensures forall m :: m != Normal && m in Chain(skip) ==> Next(Prev(m, skip), skip) == m
  {
  }

  // ---------------------------------------------------------------------------
  // Initial focus and the cache
  // ---------------------------------------------------------------------------

  datatype FocusBehaviour = FirstNonCached | NoFocus | EnvironmentFocus | UsernameFocus | PasswordFocus

  /** Which remember options are on and whether the switcher is shown. */
  datatype FormConfig = FormConfig(envRemember: bool, userRemember: bool, switcherVisible: bool, preview: bool)

  /**
   * The focus when the form opens, after the cache was loaded: under
   * FirstNonCached, the first field whose value was not restored.
   */
  function InitialFocus(b: FocusBehaviour, c: FormConfig, username: string, selectedTitle: Option<string>)
    : (m: InputMode)
    ensures b == NoFocus ==> m == Normal
    ensures b == EnvironmentFocus ==> m == Switcher
    ensures b == UsernameFocus ==> m == Username
    ensures b == PasswordFocus ==> m == Password
    ensures b == FirstNonCached ==>
      var userKnown := c.userRemember && username != [];
      var envKnown := c.envRemember && selectedTitle.Some? && selectedTitle.value != [];
      && (m == Password <==> userKnown && envKnown)
      && (m == Switcher <==> !userKnown && c.switcherVisible)
      && (m == Username <==> (userKnown && !envKnown) || (!userKnown && !c.switcherVisible))
      && m != Normal
  {
    match b
    case FirstNonCached =>
      var userKnown := c.userRemember && username != [];
      var envKnown := c.envRemember && (selectedTitle.Some? && selectedTitle.value != []);
      if userKnown && envKnown then Password
      else if userKnown then Username
      else if c.switcherVisible then Switcher
      else Username
    case NoFocus => Normal
    case EnvironmentFocus => Switcher
    case UsernameFocus => Username
    case PasswordFocus => Password
  }

  /** What is written to the cache: the selected title and the username, each only if remembered. */
  datatype CacheWrite = CacheWrite(environment: Option<string>, username: Option<string>)

  /** The cache write on login or on request; nothing is written when neither value is remembered. */
  function SetCache(c: FormConfig, selectedTitle: Option<string>, username: string): (w: Option<CacheWrite>)
    ensures w.None? <==> !c.envRemember && !c.userRemember
    ensures w.Some? ==> (w.value.username.Some? <==> c.userRemember)
    ensures w.Some? && c.userRemember ==> w.value.username == Some(username)
    ensures w.Some? && c.envRemember ==> w.value.environment == selectedTitle
    ensures w.Some? && !c.envRemember ==> w.value.environment.None?
  {
    if !c.envRemember && !c.userRemember then None
    else Some(CacheWrite(if c.envRemember then selectedTitle else None, if c.userRemember then Some(username) else None))
  }

  /**
   * Loading the cache: a remembered username replaces the field's content,
   * and a remembered environment title is offered to the switcher to select.
   */
  function LoadCache(c: FormConfig, cached: CacheWrite, username: string): (r: (string, Option<string>))
    ensures c.userRemember && cached.username.Some? ==> r.0 == cached.username.value
    ensures !(c.userRemember && cached.username.Some?) ==> r.0 == username
    ensures r.1.Some? <==> c.envRemember && cached.environment.Some?
    ensures r.1.Some? ==> r.1 == cached.environment
  {
    (if c.userRemember && cached.username.Some? then cached.username.value else username,
     if c.envRemember then cached.environment else None)
  }

  /** What one login stores, the next start restores: the username and the selection's title. */
  lemma CacheRoundTrip(c: FormConfig, selectedTitle: Option<string>, username: string, other: string)
    requires SetCache(c, selectedTitle, username).Some?
    ensures var r := LoadCache(c, SetCache(c, selectedTitle, username).value, other);
      && (c.userRemember ==> r.0 == username)
      && (!c.userRemember ==> r.0 == other)
      && (c.envRemember ==> r.1 == selectedTitle)
      && (!c.envRemember ==> r.1 == None)
  {
  }

  // ---------------------------------------------------------------------------
  // One terminal event in the worker loop
  // ---------------------------------------------------------------------------

  datatype Modifier = Shift | Control | Alt

  datatype KeyCode = Enter | Up | Down | Tab | BackTab | Esc | Char(c: char) | F(n: nat) | OtherKey(id: nat)

  datatype Event = Key(code: KeyCode, modifiers: set<Modifier>) | NotAKey

  datatype StatusMessage =
    | Authenticating
    | LoggingIn
    | NoGraphicalEnvironment
    | AuthError(error: Pam.AuthenticationError)
    | WidgetMessage(id: nat)

  /** The requests the worker sends to the drawing thread. */
  datatype UiRequest =
    | Redraw
    | DisableTui
    | StopDrawing
    | LoginSuccess(info: Pam.AuthUserInfo, environment: PostLogin.PostLoginEnvironment)

  /** The worker's observable actions, in order. */
  datatype Effect =
    | Send(request: UiRequest)
    | WriteCache(write: CacheWrite)
    | TryAuth(username: string, password: string)
    | Pause(seconds: nat)

  /** The state the worker reads and writes. */
  datatype Form = Form(
    mode: InputMode,
    status: Option<StatusMessage>,
    username: string,
    password: string,
    selected: Option<(string, PostLogin.PostLoginEnvironment)>,
    switcherHidden: bool)

  /**
   * The answers from outside for one event: the authentication result, and
   * what the widget that receives the key reports, holds or shows afterwards.
   */
  datatype EventOracle = EventOracle(
    auth: Result<Pam.AuthUserInfo, Pam.AuthenticationError>,
    widgetStatus: Option<StatusMessage>,
    fieldContent: string,
    selectionAfter: Option<(string, PostLogin.PostLoginEnvironment)>,
    hiddenAfter: bool)

  /** The arm of the worker's key match that handles a key, in the match's order. */
  datatype KeyArm = Submit | SaveCache | Back | Forward | EscNormal | EscOther | Function | ToWidget

  predicate IsBackKey(code: KeyCode, mods: set<Modifier>) {
    code == Up || code == BackTab
    || (code == Tab && (mods == {Alt} || mods == {Shift}))
    || (code == Char('p') && mods == {Control})
  }

  predicate IsForwardKey(code: KeyCode, mods: set<Modifier>) {
    code == Enter || code == Down || code == Tab || (code == Char('n') && mods == {Control})
  }

  function Classify(code: KeyCode, mode: InputMode, mods: set<Modifier>): (a: KeyArm)
    ensures a == Submit <==> code == Enter && mode == Password
    ensures a == SaveCache <==> code == Char('s') && mode == Normal
    ensures a == Back <==> !(code == Char('s') && mode == Normal) && IsBackKey(code, mods)
    ensures a == Forward <==> !(code == Enter && mode == Password) && !IsBackKey(code, mods) && IsForwardKey(code, mods)
    ensures a == EscNormal <==> code == Esc && mode == Normal
    ensures a == EscOther <==> code == Esc && mode != Normal
    ensures a == Function <==> code.F?
  {
    if code == Enter && mode == Password then Submit
    else if code == Char('s') && mode == Normal then SaveCache
    else if IsBackKey(code, mods) then Back
    else if IsForwardKey(code, mods) then Forward
    else if code == Esc && mode == Normal then EscNormal
    else if code == Esc then EscOther
    else if code.F? then Function
    else ToWidget
  }

  /** Whether the effects contain an authentication attempt. */
  predicate Attempts(effects: seq<Effect>) {
    exists k :: k in effects && k.TryAuth?
  }

  /**
   * Enter in the password field: a preview pauses, a missing environment is
   * reported, otherwise the credentials are tried and the password cleared.
   * The flag is false when the trailing redraw is skipped.
   */
  function SubmitPassword(c: FormConfig, f: Form, o: EventOracle): (r: (Form, seq<Effect>, bool))
    ensures !r.2 <==> !c.preview && f.selected.None?
    ensures !r.2 ==> r.0 == f.(status := Some(NoGraphicalEnvironment)) && r.1 == [Send(Redraw)]
    ensures Attempts(r.1) <==> !c.preview && f.selected.Some?
    ensures Attempts(r.1) ==>
      |r.1| >= 2 && r.1[0] == Send(Redraw) && r.1[1] == TryAuth(f.username, f.password)
      && r.0.password == []
      && (forall i :: 0 <= i < |r.1| && i != 1 ==> !r.1[i].TryAuth?)
      && (o.auth.Err? ==> r.0.status == Some(AuthError(o.auth.error)) && r.1 == r.1[..2] + [Send(Redraw)])
      && (o.auth.Ok? ==>
            r.0.status == Some(LoggingIn)
            && r.1[|r.1| - 2..] == [Send(DisableTui), Send(LoginSuccess(o.auth.value, f.selected.value.1))])
    ensures forall i :: 0 <= i < |r.1| && r.1[i].Send? && r.1[i].request.LoginSuccess? ==>
      Attempts(r.1) && o.auth.Ok? && i == |r.1| - 1
    ensures r.0.mode == f.mode && r.0.switcherHidden == f.switcherHidden
  {
    if c.preview then
      (f.(status := None),
       [Send(Redraw), Pause(2), Send(Redraw), Pause(2), Send(Redraw)], true)
    else if f.selected.None? then
      (f.(status := Some(NoGraphicalEnvironment)), [Send(Redraw)], false)
    else
      var cleared := f.(password := [], status := Some(Authenticating));
      var attempt := [Send(Redraw), TryAuth(f.username, f.password)];
      if o.auth.Ok? then
        var cache := SetCache(c, Some(f.selected.value.0), f.username);
        var write := if cache.Some? then [WriteCache(cache.value)] else [];
        var effects := attempt + write + [Send(Redraw), Send(DisableTui), Send(LoginSuccess(o.auth.value, f.selected.value.1))];
        assert effects[1] in effects;
        (cleared.(status := Some(LoggingIn)), effects, true)
      else
        var effects := attempt + [Send(Redraw)];
        assert effects[1] in effects;
        (cleared.(status := Some(AuthError(o.auth.error))), effects, true)
  }

  /**
   * The part of the key match that runs before the trailing redraw; the
   * flag is false when the arm skips that redraw.
   */
  function HandleKey(c: FormConfig, f: Form, code: KeyCode, mods: set<Modifier>, o: EventOracle)
    : (r: (Form, seq<Effect>, bool))
    ensures !r.2 <==> code == Enter && f.mode == Password && !c.preview && f.selected.None?
    ensures !r.2 ==> r.0 == f.(status := Some(NoGraphicalEnvironment)) && r.1 == [Send(Redraw)]
    ensures Attempts(r.1) <==> code == Enter && f.mode == Password && !c.preview && f.selected.Some?
    ensures Attempts(r.1) ==>
      |r.1| >= 2 && r.1[0] == Send(Redraw) && r.1[1] == TryAuth(f.username, f.password)
      && r.0.password == []
      && (forall i :: 0 <= i < |r.1| && i != 1 ==> !r.1[i].TryAuth?)
      && (o.auth.Err? ==> r.0.status == Some(AuthError(o.auth.error)) && r.1 == r.1[..2] + [Send(Redraw)])
      && (o.auth.Ok? ==>
            r.0.status == Some(LoggingIn)
            && r.1[|r.1| - 2..] == [Send(DisableTui), Send(LoginSuccess(o.auth.value, f.selected.value.1))])
    ensures forall i :: 0 <= i < |r.1| && r.1[i].Send? && r.1[i].request.LoginSuccess? ==>
      Attempts(r.1) && o.auth.Ok? && i == |r.1| - 1
    ensures code.F? ==> r.0.switcherHidden == o.hiddenAfter && (r.0.switcherHidden ==> r.0.mode != Switcher)
    ensures code.F? && f.mode == Switcher && o.hiddenAfter ==> r.0.mode == Username
    ensures code.F? && !(f.mode == Switcher && o.hiddenAfter) ==> r.0.mode == f.mode
  {
    match Classify(code, f.mode, mods)
    case Submit => SubmitPassword(c, f, o)
    case SaveCache =>
      var cache := SetCache(c, if f.selected.Some? then Some(f.selected.value.0) else None, f.username);
      (f, if cache.Some? then [WriteCache(cache.value)] else [], true)
    case Back => (f.(mode := Prev(f.mode, f.switcherHidden)), [], true)
    case Forward => (f.(mode := Next(f.mode, f.switcherHidden)), [], true)
    case EscNormal => (f, if c.preview then [Send(StopDrawing)] else [], true)
    case EscOther => (f.(mode := Normal), [], true)
    case Function =>
      var g := f.(selected := o.selectionAfter, switcherHidden := o.hiddenAfter);
      (if g.mode == Switcher && g.switcherHidden then g.(mode := Next(Switcher, true)) else g, [], true)
    case ToWidget =>
      var g := match f.mode
        case Switcher => f.(selected := o.selectionAfter)
        case Username => f.(username := o.fieldContent)
        case Password => f.(password := o.fieldContent)
        case Normal => f;
      var status := if f.mode != Normal && o.widgetStatus.Some? then o.widgetStatus else f.status;
      (g.(status := status), [], true)
  }

  /**
   * One pass of the worker loop: handle the event, then request a redraw,
   * unless the submission found no environment to start.
   */
  function HandleEvent(c: FormConfig, f: Form, e: Event, o: EventOracle): (r: (Form, seq<Effect>))
    ensures |r.1| > 0 && r.1[|r.1| - 1] == Send(Redraw)
    // The guard before authentication.
    ensures Attempts(r.1) <==> e.Key? && e.code == Enter && f.mode == Password && !c.preview && f.selected.Some?
    ensures e.Key? && e.code == Enter && f.mode == Password && !c.preview && f.selected.None? ==>
      r == (f.(status := Some(NoGraphicalEnvironment)), [Send(Redraw)])
    // An attempt uses the password typed so far, which no longer stays in the form.
    ensures Attempts(r.1) ==>
      r.1[0] == Send(Redraw) && r.1[1] == TryAuth(f.username, f.password) && r.0.password == []
      && (forall i :: 0 <= i < |r.1| && i != 1 ==> !r.1[i].TryAuth?)
    // A login is handed over only after a successful attempt, with the selected environment, before the redraw.
    ensures forall i :: 0 <= i < |r.1| && r.1[i].Send? && r.1[i].request.LoginSuccess? ==>
      Attempts(r.1) && o.auth.Ok? && i == |r.1| - 2
    ensures Attempts(r.1) && o.auth.Ok? ==>
      r.0.status == Some(LoggingIn)
      && r.1[|r.1| - 3..] == [Send(DisableTui), Send(LoginSuccess(o.auth.value, f.selected.value.1)), Send(Redraw)]
    ensures Attempts(r.1) && o.auth.Err? ==>
      r.0.status == Some(AuthError(o.auth.error)) && r.1 == r.1[..2] + [Send(Redraw), Send(Redraw)]
    // Events other than keys only redraw.
    ensures e.NotAKey? ==> r == (f, [Send(Redraw)])
    // The switcher never keeps the focus once it is hidden by a function key.
    ensures e.Key? && e.code.F? ==>
      r.0.switcherHidden == o.hiddenAfter && (r.0.switcherHidden ==> r.0.mode != Switcher)
  {
    match e
    case NotAKey => (f, [Send(Redraw)])
    case Key(code, mods) =>
      var (g, effects, redraw) := HandleKey(c, f, code, mods, o);
      if redraw then (g, effects + [Send(Redraw)]) else (g, effects)
  }
}
