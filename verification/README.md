# lemurs core, modelled in Dafny

lemurs is a TTY login manager. This project models its sequential decision logic:
- authenticate a user through PAM;
- drop privileges;
- launch a shell, a Wayland session or an X server for them.

Around that central path it also models the supporting pieces:
- the login form's focus state machine;
- the command-line parser;
- the panel layout tables;
- the KMS framebuffer back buffer;
- colour packing and the cell grid of the graphical backend;
- utmpx accounting records;
- console selection for VT switching.

Every foreign call is an oracle input: a value or a finite list of results that the model consumes. This covers:
- PAM;
- `setgroups`/`setgid`/`setuid`;
- `poll`, signalfd and `try_wait`;
- clocks;
- DRM and VT ioctls;
- directory listings and desktop-file parsing.

The model is pure functions over immutable datatypes. Four operations are methods with loop invariants:
- the environment container's application to a command;
- the framebuffer's rectangle fill;
- the X readiness wait;
- the utmpx field copies.

One module per source file:

| module | file | what it holds |
|---|---|---|
| `Wrappers` | — | `Option`, `Result`, `Outcome` |
| `Pam` | src/auth/pam.rs | the conversation callback, `open_session` as a fail-closed five-step pipeline, environment harvesting, the authenticator's teardown |
| `PostLogin` | src/post_login/mod.rs | the privilege drop, argument construction for `spawn`, XDG names, desktop-entry parsing, `get_envs` |
| `XSetup` | src/post_login/x.rs | `setup_x`: environment checks, xauth, VT padding, the SIGUSR1 mask, the readiness wait loop |
| `EnvContainer` | src/env_container.rs | the environment container and its replace-all application to a command |
| `LoginUi` | src/ui/mod.rs | `InputMode::next`/`prev`, initial focus, the cache decision, key dispatch in the worker loop |
| `Cli` | src/cli.rs | `parse_args` over a token list |
| `Chunks` | src/ui/chunks.rs | the layout constraint tables and the `v_idx`/`h_idx` selection |
| `Kms` | src/gui/kms.rs | device, connector, mode and encoder/CRTC selection; the back buffer's `set_pixel`, `fill_rect`, `fill_screen` |
| `GuiBackend` | src/gui/backend.rs | `color_to_rgb`, the grid size, the cursor state and its bar |
| `Utmpx` | src/auth/utmpx.rs | `add_utmpx_entry` field construction and the DEAD_PROCESS teardown |
| `Chvt` | src/chvt.rs | console probing, the open-flag retry order, the path and stream fallbacks, `chvt` |

Integer widths are written out where they matter:
- `u32` wrap-around in `fill_rect`'s `x + w`, following release-build semantics;
- `u32` wrap-around of the mapped size, height times pitch;
- `i32` wrap-around of cursor coordinates, and their cast back to `u32`;
- the 16-bit truncation of the grid size;
- the signed reinterpretation of the utmpx pid.

PAM constants follow Linux-PAM:
- `PAM_SUCCESS` = 0, `PAM_BUF_ERR` = 5, `PAM_CRED_UNAVAIL` = 15, `PAM_CRED_EXPIRED` = 16, `PAM_CONV_ERR` = 19;
- message styles: echo-off = 1, echo-on = 2, error = 3, info = 4.

## Model

| member | source | states |
|---|---|---|
| Pam.AnswerAll | src/auth/pam.rs:89-127 | Replies iff every message is answerable. Response i then belongs to message i: a prompt gets the secret (or null once the secret is cleared), a notice gets null. The first unanswerable message decides the failure: an unknown style gives PAM_CONV_ERR, and a prompt whose secret holds a NUL panics. |
| Pam.Conversation | src/auth/pam.rs:69-128 | A failed response allocation gives PAM_BUF_ERR. Otherwise it replies iff every message is answerable, with retcode 0 in every response. A panic only happens when the secret cannot become a C string. |
| Pam.SplitOnce | src/auth/pam.rs:213-217 | Splits at the first '=': the key has no '=' and key + "=" + value rebuilds the entry. None exactly when the entry has no '='. |
| Pam.SplitOnceOfJoin | src/auth/pam.rs:213-217 | Inverse: splitting k + "=" + v for a '='-free k gives back (k, v). |
| Pam.HarvestEnv | src/auth/pam.rs:208-227 | A key is in the harvested map iff some entry defines it, so entries without '=' contribute nothing. |
| Pam.HarvestEnvLastWins | src/auth/pam.rs:208-227 | Each harvested key is bound to the value of the LAST entry defining it, so a later duplicate overwrites an earlier one. |
| Pam.RunRounds | src/auth/pam.rs:69-128 | Conversation rounds inside one PAM call run in order. They stop right after the first round that panics, and every round before it completes. |
| Pam.Teardown | src/auth/pam.rs:59-67 | `pam_end` is called at most once: exactly when an authenticator with a non-null handle is dropped, with its last status. |
| Pam.LookupUser | src/auth/pam.rs:230-257 | Ok iff the user exists and both home directory and shell are valid UTF-8. Each failure has its own error. On success the identity carries uid, gids, home, shell and the harvested environment. |
| Pam.SetCredError | src/auth/pam.rs:190-197 | CRED_UNAVAIL → CredUnavailable, CRED_EXPIRED → CredExpired, any other code → Other(code) with that exact code. |
| Pam.StepError | src/auth/pam.rs:157-203 | Each failing step maps to its error: start → PamService(service); authenticate or acct_mgmt → AccountValidation; setcred → the setcred mapping; open_session → SessionOpen. |
| Pam.Advance | src/auth/pam.rs:170-203 | A successful step appends itself to the call log and keeps the run's invariant. The secret is dropped exactly after authenticate. |
| Pam.Stop | src/auth/pam.rs:157-203 | A failing step, or a panicking conversation, ends the run fail-closed. A process abort can only come from authenticate, with a NUL in the password. |
| Pam.Drive | src/auth/pam.rs:157-203 | The step driver is fail-closed: calls form a prefix of start, authenticate, acct_mgmt, setcred, open_session, and every step but the last in a failed run succeeded. |
| Pam.DriveRespectsSecret | src/auth/pam.rs:143-145 | Prompts before the end of authenticate are answered with the password; every prompt afterwards gets null. |
| Pam.DriveErrors | src/auth/pam.rs:157-203 | A returned error comes from the last call's step through StepError, or from the user lookup once all five calls succeeded. |
| Pam.DriveSuccess | src/auth/pam.rs:157-257 | A run returns Ok iff every remaining step succeeds, authenticate's conversation does not panic, and the lookup succeeds. |
| Pam.DriveAuthenticator | src/auth/pam.rs:59-67 | On a failed run the authenticator holds the handle and the last call's status, and it still holds the password iff authenticate has not succeeded. |
| Pam.OpenSession | src/auth/pam.rs:131-258 | `open_session` is fail-closed and respects the secret. It aborts only with a NUL in the password, after start and authenticate. A returned error before all five calls ends on a failing status. |
| Pam.OpenSessionOk | src/auth/pam.rs:165-257 | Ok iff: no NUL in username or service; all five PAM calls succeed; authentication's conversation does not panic; the user exists with UTF-8 home and shell. The identity then holds the looked-up fields, the harvested environment and an authenticator whose secret is cleared. |
| Pam.OpenSessionErrors | src/auth/pam.rs:138-140 | A NUL in the username gives UsernameNotFound and a NUL in the service gives PamService, both before any PAM call. Any other error is StepError of the failing call or the lookup's error. |
| Pam.OpenSessionAuthenticator | src/auth/pam.rs:175-181 | On every error after `pam_start` the authenticator owns the handle with the last call's status. Its secret is None iff authentication succeeded, and otherwise equals the password. |
| Pam.OpenSessionTeardown | src/auth/pam.rs:59-67 | Dropping the authenticator after open_session runs `pam_end` once iff the handle is non-null, with the last status (PAM_SUCCESS on the Ok path). |
| Pam.NeverCredUninitialized | src/auth/pam.rs:14-25 | The CredUninitialized variant is never returned. |
| PostLogin.ToXdgType | src/post_login/mod.rs:31-36 | Shell → "tty", Wayland → "wayland". |
| PostLogin.ToXdgDesktop | src/post_login/mod.rs:38-43 | Shell → None, Wayland → Some(env_name). |
| PostLogin.XdgDesktopIffWayland | src/post_login/tests.rs:4-20 | The two XDG names agree: a desktop name exists iff the type is "wayland", and is absent iff the type is "tty". |
| PostLogin.DropPlan | src/post_login/mod.rs:74-112 | The drop is three calls in the fixed order setgroups, setgid, setuid. |
| PostLogin.PreExec | src/post_login/mod.rs:73-119 | The calls made are a prefix of the plan. setgroups gets all_gids, setgid primary_gid, setuid uid. Every call but the last succeeded. The hook passes iff all three succeed, and otherwise fails naming the failing step. |
| PostLogin.PreExecStopsAtFailure | src/post_login/mod.rs:86-115 | If step i fails, no step after i runs and the hook fails. |
| PostLogin.LoginFlagArgs | src/post_login/mod.rs:157-161 | None → no argument, Short → "-l", Long → "--login". |
| PostLogin.Spawn | src/post_login/mod.rs:151-214 | Builds the command: program = system shell, args = login flag then "-c" then the script path (Wayland) or the user's shell (Shell). The environment is applied replace-all. The target executes iff all three drops and the exec succeed. A failure maps only to WaylandStart or TTYStart. |
| PostLogin.FindGroup | src/post_login/mod.rs:232-238 | Returns the first group with the name, or None iff no group has it. |
| PostLogin.ParseDesktopEntry | src/post_login/mod.rs:217-269 | Read and parse failures each give their own error, and so do a missing "Desktop Entry" group and a missing Exec. Name falls back to Exec when it is missing or not a string. |
| PostLogin.ScriptCandidate | src/post_login/mod.rs:305-343 | A script is accepted iff it is a file with an executable bit, a UTF-8 file name and a UTF-8 path. Its title and env_name are then both the file name and its script path is the path. |
| PostLogin.SessionCandidate | src/post_login/mod.rs:280-302 | A desktop file is accepted iff it parses. Its title and env_name are then Name, and its script is Exec. |
| PostLogin.Present | src/post_login/mod.rs:280-343 | Keeps exactly the present values of the option list: nothing invented, nothing present dropped. |
| PostLogin.ScriptEnvs | src/post_login/mod.rs:305-350 | Exactly the accepted scripts' candidates appear, each labelled by its env_name. |
| PostLogin.SessionEnvs | src/post_login/mod.rs:280-302 | Exactly the accepted desktop files' candidates appear, each labelled by its env_name. |
| PostLogin.LabelledConcat | src/post_login/mod.rs:271-359 | Joining two labelled lists keeps every title equal to its env_name. |
| PostLogin.GetEnvs | src/post_login/mod.rs:271-359 | The list is never empty. ("Terminal", Shell) comes first when the TTY shell is included and is the only Shell entry. Every Wayland entry is titled by its env_name. Sessions and scripts are included as found. |
| PostLogin.GetEnvsFallback | src/post_login/mod.rs:353-356 | If nothing is found and the TTY shell is not included, the result is exactly [("Terminal", Shell)]. |
| XSetup.PadVt | src/post_login/x.rs:113-117 | A one-character VT number gets a "0" prefix; any other length is unchanged. |
| XSetup.PadVtWidth | src/post_login/x.rs:113-117 | A non-empty VT number pads to at least two characters and ends with the original. |
| XSetup.JoinPath | src/post_login/x.rs:79-80 | Path join: an empty directory gives the name, and a separator is inserted only when the directory does not already end in '/'. |
| XSetup.JoinPathParts | src/post_login/x.rs:79-80 | The joined path starts with the directory and ends with the name. |
| XSetup.Mcookie | src/post_login/x.rs:60-64 | The cookie is exactly 32 lower-case hex digits. |
| XSetup.HexRoundTrip | src/post_login/x.rs:60-64 | Parsing the width-w hex rendering of any n < 16^w gives back n. |
| XSetup.McookieRoundTrip | src/post_login/x.rs:60-64 | The 32-digit cookie encodes its 128-bit random value without loss. |
| XSetup.RemainingTime | src/post_login/x.rs:169-179 | 1 000 000 ms when the timeout is 0. Otherwise it is 0 iff elapsed ≥ secs·1000, and elapsed + remaining = secs·1000. |
| XSetup.EffectiveTimeout | src/post_login/x.rs:193 | Each poll waits min(100, remaining) ms. |
| XSetup.TickStep | src/post_login/x.rs:167-234 | One loop iteration. Timeout iff the timeout is non-zero and elapsed ≥ total. Otherwise: ready iff SIGUSR1 was read; a poll error other than EINTR stops with its reason; a child that has exited stops as premature exit; anything else continues. |
| XSetup.InterruptedPollRetries | src/post_login/x.rs:197-204 | An EINTR poll error with a live child and no timeout continues the loop. |
| XSetup.OnlySigusr1IsReady | src/post_login/x.rs:205-222 | Another signal, no signal or a read error never counts as ready, and with a live child it continues. |
| XSetup.DecidesAtUnique | src/post_login/x.rs:167-234 | The wait loop's verdict and the iteration that decides it are unique. |
| XSetup.WaitForReady | src/post_login/x.rs:167-234 | The loop stops at the first deciding iteration with that verdict. It keeps waiting only if every iteration continues. Every poll wait is min(100, remaining). A timeout stops the loop before polling. |
| XSetup.Prepare | src/post_login/x.rs:66-155 | DISPLAY, XDG_VTNR and HOME failures come in that order and leave the mask alone. xauth runs iff all three are set, and only its spawn failure counts. XAUTHORITY is set to HOME/.Xauthority. SIGUSR1 is blocked before the SignalFd and the server. A block failure gives SignalMasking, a SignalFd failure gives SignalFdCreation, and a spawn failure unblocks and gives XServerStart. |
| XSetup.Launch | src/post_login/x.rs:110-155 | The server is spawned iff blocking and SignalFd creation succeed, as `system_shell -c "<server> <display> vt<padded vt>"`. Only a spawn failure unblocks again. |
| XSetup.SignalFdFailureLeavesSigusr1Blocked | src/post_login/x.rs:129-130 | The SignalFd creation failure returns SignalFdCreation with SIGUSR1 still blocked and no unblock call. |
| XSetup.AfterWait | src/post_login/x.rs:181-250 | Every loop exit unblocks SIGUSR1 once. Timeout kills the child and gives XServerTimeout. Poll error → PollError, premature exit → XServerPrematureExit. Ready succeeds iff the final unblock succeeds. |
| XSetup.WaitAndFinish | src/post_login/x.rs:157-250 | After the spawn: the child is killed iff the result is a timeout. Success means SIGUSR1 was read at some deciding iteration and the final unblock succeeded, leaving the mask unblocked and returning the server's pid. |
| XSetup.SetupX | src/post_login/x.rs:66-251 | The whole of setup_x: the preparation's outcome when the server is not spawned, and otherwise the wait loop's outcome. Every poll wait is at most 100 ms, a kill happens only on timeout, and success leaves SIGUSR1 unblocked. |
| EnvContainer.NewCommand | src/env_container.rs:71-78 | A fresh command has no arguments, an inherited environment and no working directory. |
| EnvContainer.New | src/env_container.rs:21-31 | The container starts from the inherited variables. Its working directory is the current directory, or "/" when that is unavailable. |
| EnvContainer.Set | src/env_container.rs:34-39 | k maps to v afterwards; every other key and the working directory are unchanged. |
| EnvContainer.SetOrPreserve | src/env_container.rs:42-49 | An existing value of k is kept; otherwise k is set to v. Every other key is unchanged. |
| EnvContainer.SetOrOwn | src/env_container.rs:52-54 | Same observable effect as set-or-preserve. |
| EnvContainer.RemoveVar | src/env_container.rs:56-60 | k is absent afterwards; every other key is unchanged. |
| EnvContainer.SetCurrentDir | src/env_container.rs:63-65 | Only the working directory changes. |
| EnvContainer.ApplyToCommand | src/env_container.rs:71-78 | The command's environment is exactly the container's variables (it is cleared first). Its working directory is the container's, and program and arguments are kept. |
| EnvContainer.RemoveAfterSet | src/env_container.rs:34-60 | Removing a key just set is the same as removing it from the original. |
| EnvContainer.SetOrPreserveIdempotent | src/env_container.rs:42-49 | A second set-or-preserve of the same key is a no-op. |
| EnvContainer.SetOrOwnIsSetOrPreserve | src/env_container.rs:52-54 | set_or_own and set_or_preserve give the same container. |
| EnvContainer.RemoveAbsentIsNoOp | src/env_container.rs:56-60 | Removing an absent key leaves the container unchanged. |
| LoginUi.Next | src/ui/mod.rs:125-140 | Normal → Username (skip) or Switcher; Switcher → Username; Username → Password; Password stays. |
| LoginUi.Prev | src/ui/mod.rs:143-158 | Normal and Switcher → Normal; Username → Normal (skip) or Switcher; Password → Username. |
| LoginUi.SkipNeverFocusesSwitcher | src/ui/mod.rs:125-158 | With the switcher skipped, neither direction ever lands on Switcher. |
| LoginUi.FocusEnds | src/ui/mod.rs:125-158 | Password is a fixed point of next and Normal a fixed point of prev. |
| LoginUi.NextPrevInverse | src/ui/mod.rs:125-158 | Along the focus chain (Normal, Switcher unless skipped, Username, Password) next steps forward and prev steps back, so each undoes the other except at the ends. |
| LoginUi.InitialFocus | src/ui/mod.rs:369-395 | Fixed focus settings map one-to-one. FirstNonCached gives: Password when a non-empty username and a non-empty environment are both remembered; Username when only the username is; otherwise Switcher if it is visible, else Username. |
| LoginUi.SetCache | src/ui/mod.rs:274-296 | Nothing is written iff neither remember flag is set. The username is passed iff it is remembered, and the environment title only when it is remembered. |
| LoginUi.LoadCache | src/ui/mod.rs:298-316 | A cached value is loaded only when its remember flag is set and it is present; otherwise the field keeps its value. |
| LoginUi.CacheRoundTrip | src/ui/mod.rs:274-316 | Loading what was cached restores the remembered username and the remembered environment. |
| LoginUi.Classify | src/ui/mod.rs:466-586 | Each key lands in exactly the match arm the source's order gives it, including the back/forward keys with their modifiers. |
| LoginUi.SubmitPassword | src/ui/mod.rs:468-522 | Without an environment it sets NoGraphicalEnvironment and does not authenticate. Otherwise it clears the password, shows Authenticating and calls try_auth with the typed username and password. Success sends LoggingIn, DisableTui and finally LoginSuccess with the environment; failure shows the error. |
| LoginUi.HandleKey | src/ui/mod.rs:466-586 | Enter in Password mode authenticates as above, and nothing else does. An F key updates the switcher's hidden flag, and if the switcher hides while focused, focus advances to Username. |
| LoginUi.HandleEvent | src/ui/mod.rs:466-590 | Every event ends with a Redraw. LoginSuccess is sent only after a successful attempt. A non-key event changes nothing else. |
| Cli.Trim | src/cli.rs:105 | The trimmed token starts and ends with non-whitespace. |
| Cli.TrimDropsWhitespace | src/cli.rs:105 | Trimming removes exactly a whitespace prefix and a whitespace suffix. |
| Cli.TrimIdentity | src/cli.rs:105 | A token already without surrounding whitespace is unchanged. |
| Cli.ParseU8 | src/cli.rs:114-123 | Accepts exactly an optional '+' followed by 1.. decimal digits of value ≤ 255, and yields that value. |
| Cli.DecimalValue | src/cli.rs:114-123 | The decimal rendering of n has value n. |
| Cli.ParseU8OfDecimal | src/cli.rs:114-123 | Parsing the decimal rendering of n ≤ 255 gives n. |
| Cli.SetValue | src/cli.rs:114-149 | --tty is accepted only for 1 ≤ N ≤ 12, else InvalidTTY. Every other flag stores its value verbatim in its own field. |
| Cli.StepToken | src/cli.rs:104-151 | A value flag consumes two tokens and any other known token one. An unknown token gives InvalidArgument(token), and a value flag without a value gives MissingArgument(flag name). |
| Cli.StepIgnoresNext | src/cli.rs:104-151 | A token that takes no value does not look at the next one. |
| Cli.ParseArgs | src/cli.rs:87-155 | An empty list gives the defaults. Any accepted tty is 1..12, and a missing argument names a value flag. |
| Cli.TtyBounded | src/cli.rs:114-123 | Over any token list, an accepted tty is within 1..12. |
| Cli.MissingNames | src/cli.rs:115-147 | A MissingArgument error always carries one of the value flags' names. |
| Cli.UnknownTokenRejected | src/cli.rs:150 | An unrecognised trimmed token gives InvalidArgument with that token. |
| Cli.TrailingFlagMissing | src/cli.rs:115-147 | A value flag at the end of input gives MissingArgument with that flag's name. |
| Cli.LaterSubcommandWins | src/cli.rs:106-110 | A later subcommand overwrites an earlier one and nothing else changes. |
| Cli.ParseConcat | src/cli.rs:104-154 | Parsing is compositional: parsing a + b continues from the result of parsing a. |
| Cli.RenderRoundTrip | src/cli.rs:37-154 | Every argument set with a valid tty is rendered as tokens that parse back to exactly it. |
| Cli.GuiTestAlone | src/cli.rs:163-167 | ["gui-test"] parses to the defaults with the GuiTest subcommand. |
| Cli.GuiTestAfterPreview | src/cli.rs:170-175 | ["--preview", "gui-test"] parses to preview with GuiTest. |
| Cli.GuiTestBeforePreview | src/cli.rs:178-183 | ["gui-test", "--preview"] parses to the same, so order does not matter. |
| Chunks.VConstraints | src/ui/chunks.rs:41-78 | Each vertical table has three rows, and the panel height Length(13) sits in the row the position names and in no other row. |
| Chunks.HConstraints | src/ui/chunks.rs:41-78 | Each horizontal table has three columns, and the panel width Length(50) sits in the column the position names and in no other column. |
| Chunks.VIdx | src/ui/chunks.rs:87-91 | v_idx is the position's row (Top 0, Center 1, Bottom 2), and that row's constraint is the panel height. |
| Chunks.HIdx | src/ui/chunks.rs:102-106 | h_idx is the position's column (Left 0, Center 1, Right 2), and that column's constraint is the panel width. |
| Chunks.PanelSlotIsFixedSize | src/ui/chunks.rs:41-106 | For every position the chosen vertical slot is Length(13) and the chosen horizontal slot Length(50). Each occurs exactly once in its triple, and v_idx follows the row and h_idx the column. |
| Chunks.TablesFollowRowAndColumn | src/ui/chunks.rs:41-78 | Positions in the same column share the horizontal table; positions in the same row share the vertical one. |
| Chunks.PositionsAreRowColumnPairs | src/ui/chunks.rs:41-78 | A panel position is determined by its row and column. |
| Chunks.PanelSlots | src/ui/chunks.rs:21-34 | Switcher, username and password take inner slots 0, 2 and 4 of Length(3) with Length(1) spacers. The key menu and status message take outer slots 0 and 2 of Length(1). |
| Kms.WrappingAdd | src/gui/kms.rs:271-290 | u32 addition wraps: exact below 2^32, otherwise reduced by 2^32 and smaller than the first operand. |
| Kms.MapSize | src/gui/kms.rs:178 | The u32 product of height and pitch: exact when it fits, zero when either factor is zero, and zero otherwise only when the product wraps. |
| Kms.OpenCard | src/gui/kms.rs:82-99 | card0 to card9 are tried in order and the first that opens is used; OpenDevice iff none opens. |
| Kms.SelectConnector | src/gui/kms.rs:110-121 | The first readable, connected connector; none iff no connector qualifies. |
| Kms.SelectMode | src/gui/kms.rs:123-133 | The first PREFERRED mode; else the first mode; ModeSet(EINVAL) iff there are no modes. |
| Kms.FindEncoderCrtc | src/gui/kms.rs:221-247 | The current encoder's CRTC when it is readable and has one. Otherwise the first readable encoder paired with the first CRTC. Otherwise NoCrtc. |
| Kms.NewBackBuffer | src/gui/kms.rs:202-203 | The back buffer has width·height cells, all zero. |
| Kms.FillScreen | src/gui/kms.rs:257-259 | Every cell gets the colour; dimensions are unchanged. |
| Kms.SetPixel | src/gui/kms.rs:261-269 | Writes cell y·width + x only when x < width and y < height; every other cell is unchanged. |
| Kms.IndexInjective | src/gui/kms.rs:261-290 | Distinct on-screen (row, column) pairs map to distinct buffer cells. |
| Kms.FillRect | src/gui/kms.rs:271-290 | Colours exactly the cells in [min(x,W), min(x+w,W)) × [min(y,H), min(y+h,H)), with x+w wrapping as a u32, and leaves all others unchanged. The buffer stays width·height. An empty or off-screen rectangle is a no-op, and a rectangle covering the screen equals fill_screen. |
| Kms.New | src/gui/kms.rs:101-218 | Construction stops at the first failing stage with that stage's error: no card opens → OpenDevice; resources → ModeSet(e); no usable connector → NoConnector; no mode → ModeSet(EINVAL); no encoder and CRTC → NoCrtc; then DumbBufferCreate(e), Framebuffer(e), DumbBufferMap(e). A zero map size panics. After that come Mmap(e) and the set_crtc ModeSet(e). It is Built iff every stage passes with a non-zero size, and then carries the selected card, connector, mode, encoder and CRTC, the map size and a zeroed back buffer of the mode's size. NoEncoder is never produced. |
| GuiBackend.ColorToRgb | src/gui/backend.rs:80-102 | Every colour packs below 2^24: Reset and Black are 0, White and Indexed are 0xFFFFFF, and Rgb(r,g,b) unpacks to (r, g, b). |
| GuiBackend.PackUnpack | src/gui/backend.rs:99 | (r<<16)\|(g<<8)\|b is below 2^24 and unpacks to (r, g, b). |
| GuiBackend.UnpackPack | src/gui/backend.rs:160-166 | Every 24-bit pixel is the packing of its unpacked channels. |
| GuiBackend.EveryPixelIsAColor | src/gui/backend.rs:80-102 | Every 24-bit pixel is the colour of some Rgb value. |
| GuiBackend.Size | src/gui/backend.rs:216-220 | None iff a character dimension is 0. Otherwise cols and rows are the 16-bit truncations of the unique counts with count·cell ≤ total < (count+1)·cell. |
| GuiBackend.CellCount | src/gui/backend.rs:216-220 | One grid dimension: the 16-bit truncation of the bracketing cell count. |
| GuiBackend.BracketsUnique | src/gui/backend.rs:216-220 | The bracketing count is unique, so the grid size is determined by the pixel and cell sizes. |
| GuiBackend.WrapI32 | src/gui/backend.rs:108-116 | Wraps into the i32 range and is the identity inside it. |
| GuiBackend.CursorPixels | src/gui/backend.rs:104-117 | The bar has 4·char_width pixels when char_height ≥ 4, and none when `char_height - 4` underflows. |
| GuiBackend.CursorBarCovers | src/gui/backend.rs:108-116 | Without overflow, the bar covers exactly the bottom four pixel rows of the cursor's cell across its width. |
| GuiBackend.PaintAllEffect | src/gui/backend.rs:108-116 | Painting a pixel list colours exactly the on-screen cells the list covers and leaves the rest unchanged. |
| GuiBackend.NewScreen | src/gui/backend.rs:70-77 | A new backend has no cursor position, keeps the given back buffer and keeps the character cell size. |
| GuiBackend.GetCursor | src/gui/backend.rs:191-193 | The cursor position is the last one set, or (0, 0) when there is none. |
| GuiBackend.SetCursor | src/gui/backend.rs:195-198 | The cursor becomes (x, y); the cell size and the buffer's dimensions are unchanged. |
| GuiBackend.HideCursor | src/gui/backend.rs:182-185 | The cursor is cleared and the buffer untouched. |
| GuiBackend.Clear | src/gui/backend.rs:211-214 | Every cell becomes black; the cursor is kept. |
| GuiBackend.CursorRoundTrip | src/gui/backend.rs:191-203 | get_cursor returns the last set position, and (0, 0) after hide_cursor or before any set. |
| GuiBackend.SetCursorPaintsBar | src/gui/backend.rs:104-117 | Without overflow, setting the cursor paints exactly the bottom four rows of its cell white and leaves every other cell unchanged. |
| Utmpx.Zeroed | src/auth/utmpx.rs:17 | A zeroed record has type 0, pid 0 and full-width fields. |
| Utmpx.CopyTruncated | src/auth/utmpx.rs:23-46 | The field keeps its width. The first min(len, width) bytes come from the source and the rest keep their old value. |
| Utmpx.PidT | src/auth/utmpx.rs:20 | The u32 pid is reinterpreted as a signed 32-bit value congruent to it mod 2^32. |
| Utmpx.AddEntry | src/auth/utmpx.rs:7-79 | On glibc the record has USER_PROCESS, the pid, and ut_user, ut_line ("tty"+N) and ut_id (N) truncated into zeroed fields, and it is written once. On other targets nothing is built or written. |
| Utmpx.UserFieldContents | src/auth/utmpx.rs:23-27 | ut_user holds the first min(len, width) username bytes and zeros after them. |
| Utmpx.TtyFieldsFit | src/auth/utmpx.rs:30-46 | For tty < 256 the decimal digits fit ut_id and "tty"+digits fits ut_line, so neither is cut. The digits' value is the tty number. |
| Utmpx.TruncatedZerosFits | src/auth/utmpx.rs:17-46 | A source that fits is copied whole and padded with zeros. |
| Utmpx.Teardown | src/auth/utmpx.rs:81-114 | A tracked session writes one DEAD_PROCESS record with ut_user zeroed and ut_line, ut_id and ut_pid unchanged. An untracked one writes nothing. |
| Utmpx.OpenThenClose | src/auth/utmpx.rs:7-114 | The logout record matches the login record's line, id and pid, with type DEAD_PROCESS and an all-zero user. |
| Chvt.IsAConsole | src/chvt.rs:74-81 | A positive answer from the keyboard-type ioctl means not a console. Otherwise the descriptor is a console iff the keyboard type is KB_101 or KB_84. |
| Chvt.FailedProbeIsNotConsole | src/chvt.rs:74-81 | A failed keyboard-type ioctl means the file is not a console. |
| Chvt.OpenAConsole | src/chvt.rs:83-104 | RDWR, RDONLY and WRONLY are tried in order. EACCES moves on, and success requires an opened console. A non-console is closed and gives NotAConsole with no further flag. Exhaustion gives OpenConsole(EIO). |
| Chvt.OpenResultWasOpened | src/chvt.rs:83-104 | A returned or closed descriptor is one the open call produced. |
| Chvt.StreamFallback | src/chvt.rs:117-123 | The first console among fds 0..2 is wrapped as Shared; GetFD iff none is a console. |
| Chvt.GetConsoleFd | src/chvt.rs:106-124 | The first console among the four paths is Owned. Else the stream fallback is Shared. Else GetFD. |
| Chvt.Release | src/chvt.rs:60-72 | Dropping an Owned fd closes it, and dropping a Shared one closes nothing. |
| Chvt.ChangeVt | src/chvt.rs:126-144 | Activate, then wait-active. An activate failure returns Activate without waiting, and the console fd is released on every path. |
| Chvt.ClosesOnlyOpened | src/chvt.rs:60-144 | Every descriptor closed during chvt was returned by an `open` of a console path, so a standard stream wrapped as Shared is never closed. |

## Left out

- Real foreign effects are not performed, only their results are consumed as oracle inputs: the PAM library, fork/exec/`pre_exec`, `setgroups`/`setgid`/`setuid`, `pthread_sigmask`, signalfd, `poll`, `kill`, `try_wait`, mmap, DRM and VT ioctls, `pututxline`.
- The worker thread, the mpsc channel, the Mutex wrappers and the lifetime transmutes in src/ui/mod.rs: concurrency and unsafe lifetime erasure are outside a sequential model. The key-dispatch decisions are modelled per event.
- Mutex poisoning inside the PAM conversation (src/auth/pam.rs:105-109): it needs a second thread to occur.
- Widget editing (username, password and switcher key presses) and the key menu: these live in widget code that is not part of this model. Their effect on the form is an oracle.
- Floating point in font metrics and glyph blending (src/gui/backend.rs): character width and height are parameters.
- Wall-clock time: elapsed milliseconds are an input of each wait iteration. utmpx timestamps are not modelled.
- The random number in `mcookie` is an input; only its formatting is modelled.
- Desktop-file parsing by the `deentry` crate, `fs::read_dir` and metadata reads: their results are oracle lists.
- The ratatui layout solver and rendering (src/ui/background.rs, src/ui/panel.rs, src/tui_utils.rs): only the constraint tables are modelled.
- The mmap copy and dirty flush of the back buffer (src/gui/kms.rs:292-320): raw pointer copies and an ioctl.
- The xauth command's exit status: the source ignores it, and only a failure to spawn xauth is an error. Removing the old `.Xauthority` is not modelled because its result is ignored.
- The `LemursChild` log redirection and `wait_with_log` are not part of this model.
- src/auth/mod.rs, main.rs and the configuration code are not part of this model; only the `AuthUserInfo` record shape is reused.
- `to_string_lossy` and UTF-8 encoding of user names: strings are sequences of characters, and utmpx takes the username as bytes.
- XSetup.PadVt: pads by character count, while the source tests the byte length; the two differ only for a non-ASCII VT value.
- XSetup.Launch: `InvalidUTF8Path` cannot occur, because paths are character strings.
- XSetup.WaitForReady: the loop runs over a finite list of iterations, so a run that never decides ends "still waiting" after the last one. The source would keep polling.
- GuiBackend.CursorPixels: follows release-build behaviour: `char_height - 4` wraps to an empty row range, and the i32 pixel coordinates wrap. A debug build panics on either overflow instead.
- Kms.FillRect: follows release-build wrap-around of `x + w`; a debug build panics on that overflow instead.
- Kms.New: the `NonZeroUsize::new(..).unwrap()` panic on a zero map size is reported as a `Panicked` outcome rather than a process abort.
- PostLogin.ScriptEnvs: states membership in both directions and the labelling, but not the order in which entries appear.
- PostLogin.SessionEnvs: states membership in both directions and the labelling, but not the order in which entries appear.
- Pam.OpenSession: a NUL in the password makes `CString::new(..).unwrap()` panic inside the conversation callback, which aborts the process across the FFI boundary. The model records this as an aborted run rather than a returned error.
