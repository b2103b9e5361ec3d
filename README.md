# cairo-playground application layer, in Dafny

This project models the application layer of cairo-playground's `glutils` library
(`src/glutils/app.c`). That layer opens one GLFW window per descriptor and installs key,
mouse-button, cursor and scroll callbacks that forward events to the user's callbacks. It
then runs a loop that redraws every window and polls events until a window is asked to close
or `app_close()` is called. Finally it tears every window down.

GLFW, OpenGL, GLEW and cairo are outside the model. What the layer does with them, and every
call of a user callback, is recorded as a `Call` appended to a trace. The order of the
calls, their arguments and the calls that are never made can then be stated and proved.

Modules:

- `Glfw` (`glfw.dfy`): the GLFW constants the layer compares against. It also holds
  `NativeWindow`, the per-window state that GLFW owns: the close flag, the size and the
  cursor position.
- `KeyInput` (`key_input.dfy`): `key_cb` as a pure decision, `TranslateKey`, checked against
  a reference definition `ExpectedCode`.
- `AppModel` (`app_model.dfy`): the layer as pure transitions of a `World`. A `World` holds
  the window values, the `quit` flag and the trace. These functions specify each callback,
  `window_update`, the set-up, main and tear-down loops, and `app_run` as a whole.
- `AppProperties` (`app_properties.dfy`): lemmas about those transitions. They cover draw
  order, drag tracking, when the loop stops, set-up and tear-down order, and the discarding
  of an early `app_close`.
- `App` (`app.dfy`): the imperative program.
  - `Window` stands for `window_t`, with `in_click` updated in place.
  - `AppState` holds the static `quit` flag.
  - The callbacks are methods of `Window`.
  - `AppRun` has the set-up loop, the `while (!quit)` loop with its inner update loop, and
    the tear-down loop.
  - Each method is proved against the `AppModel` function for the same step. `AppRun` ends
    with exactly the trace that `AppModel.Run` computes.

The environment is a parameter:

- A script of input batches. Batch k is what the k-th `glfwPollEvents` delivers.
- One `WinEnv` per window. It gives GLFW's size and cursor for the new window and the
  pointer that its `init` callback returns.

An application callback that calls `app_close()` appears in the script as `QuitInput`. A
user who clicks a window's close button appears as `CloseInput`. `app_run` only returns if
something ends the loop, so `AppRun` requires that some batch holds a `QuitInput` or a
`CloseInput`. This makes the main loop's termination provable without a fuel bound.

The key callback returns at app.c line 48 on any event with the Control bit set, whatever
else is held. So the `ctrl` argument computed at line 49 is true exactly when Super is held,
which `TranslateKey` states.

## Model

| member | source | states |
|---|---|---|
| KeyInput.ToLower | src/glutils/app.c:50-52 | only 'A'..'Z' change; they map to the matching lower-case letter, and the result is never upper case |
| KeyInput.TranslateKey | src/glutils/app.c:44-62 | a key event reaches the callback iff the window is not closing, the key is known, Control is not held and a `key` callback exists; `ctrl` is exactly "Super held"; action and scancode pass through; the code is Backspace→0x08, Enter→'\n', otherwise the lower-cased key unless Shift is held (ExpectedCode) |
| KeyInput.NoUpperWithoutShift | src/glutils/app.c:50-52 | without Shift no upper-case letter reaches the `key` callback |
| AppModel.KeyEvent | src/glutils/app.c:44-62 | key_cb on a window value makes one call iff the window is not closing, the key is known, Control is not held and a `key` callback exists; that call carries the window's user data, the action, "Super held", the code ExpectedCode gives and the scancode |
| AppModel.ButtonEvent | src/glutils/app.c:73-86 | on a window that is not closing, `in_click` becomes `action == PRESS` whether or not a `mouse` callback exists, and nothing else changes; the callback, if any, is called once with the cursor and the live size; a closing window is left alone and nothing is called |
| AppModel.CursorEvent | src/glutils/app.c:64-71 | the `mouse` callback sees ACTION_MOVE, the new position and the live size iff the window is not closing, `in_click` holds and it has a `mouse` callback; the window keeps its drag flag |
| AppModel.ScrollEvent | src/glutils/app.c:88-99 | the `scroll` callback is called once, with the cursor position and the delta, iff the window is not closing and has one |
| AppModel.Deliver | src/glutils/app.c:44-99 | one input keeps the window count, only extends the trace, and raises quit iff it was raised or the input is an app_close request |
| AppModel.DeliverOthers | src/glutils/app.c:44-99 | one input changes no window but its own, and never a window's descriptor or user data |
| AppModel.DeliverAll | src/glutils/app.c:226 | the callbacks run during one poll keep the window count and only extend the trace |
| AppModel.Poll | src/glutils/app.c:226 | glfwPollEvents is recorded before any callback it runs |
| AppModel.Update | src/glutils/app.c:156-198 | false and no call at all when closing; otherwise true, ending with the buffer swap; `crdraw` is called with the configured size iff the window is open and has one, `draw` with the live size iff it is open, has one and has no `crdraw` |
| AppModel.UpdateDraws | src/glutils/app.c:165-198 | every draw call of an update carries exactly those arguments, there is at most one draw call, and every call is a draw, a blit or a swap for this window |
| AppModel.UpdateFrom | src/glutils/app.c:223-225 | the inner update loop leaves every window value as it was and only extends the trace |
| AppModel.Iteration | src/glutils/app.c:222-226 | one pass of the main loop keeps the window count and only extends the trace |
| AppModel.IterationQuit | src/glutils/app.c:222-226 | one pass raises quit iff it was raised, some window was closing when the updates ran, or the poll delivered an app_close request |
| AppModel.LoopNext | src/glutils/app.c:221-227 | after one pass the loop ends iff that pass raised quit; otherwise a stop is still ahead and the loop goes on from the next batch |
| AppModel.Loop | src/glutils/app.c:220-227 | the main loop, entered with quit unset, ends with quit set and the window count unchanged |
| AppModel.InitCallsShape | src/glutils/app.c:106-154 | of the calls InitCalls lists for window_init: window_init creates its window first, makes calls for that window only, runs the one-shot render set-up iff first, calls `init` iff there is one and creates the texture iff there is a `crdraw` |
| AppModel.Initial | src/glutils/app.c:142-144 | a window after window_init has its descriptor, is neither dragging nor closing, and has null user data when there is no `init` |
| AppModel.InitWindow | src/glutils/app.c:216-218 | window_init for the next slot adds exactly one window, keeps quit and only extends the trace |
| AppModel.InitWindowNext | src/glutils/app.c:216-218 | one step of the set-up loop appends the window as window_init leaves it and that window's set-up calls, and the loop goes on from there |
| AppModel.InitFrom | src/glutils/app.c:215-218 | the set-up loop ends with one window per descriptor, quit untouched, and the earlier trace as a prefix |
| AppModel.InitFromWins | src/glutils/app.c:215-218 | the set-up loop keeps the windows already there, and slot j holds descriptor j's window as window_init leaves it (its user data is `init`'s result, or null without `init`) |
| AppModel.FiniCalls | src/glutils/app.c:200-204 | window_fini ends by destroying its window and calls `fini`, with the window's user data, iff there is one |
| AppModel.FiniFrom | src/glutils/app.c:231-233 | tear-down changes neither the windows nor quit and only extends the trace |
| AppModel.Run | src/glutils/app.c:211-235 | app_run ends with quit set, one window per descriptor, and the earlier trace as a prefix |
| AppModel.UpdateFromQuit | src/glutils/app.c:223-225 | the update pass raises quit iff it was raised or some window from i on is closing |
| AppModel.DeliverAllQuit | src/glutils/app.c:206-209 | polling raises quit iff it was raised or the batch holds an app_close request (`QuitInput`) |
| AppModel.DeliverAllClosing | src/glutils/app.c:221-226 | after a poll a window is closing iff it was already closing or the batch asked it to close |
| AppModel.LoopProgress | src/glutils/app.c:221-227 | an iteration that leaves quit unset still has a closing window or a later closing input ahead |
| AppProperties.UpdateCalls | src/glutils/app.c:156-198 | an update makes only frame calls for its own window, none at all when closing, and exactly one buffer swap otherwise |
| AppProperties.DeliverCalls | src/glutils/app.c:44-99 | an input calls only the user's `key`, `mouse` or `scroll` callback (so no drawing, swap or poll), none for another window or for a closing window, and never reopens a closing window |
| AppProperties.UpdateFromSwaps | src/glutils/app.c:223-225 | the update pass swaps the buffers of exactly the windows that are not closing, once each and in index order, even after one returned false |
| AppProperties.UpdateFromSilent | src/glutils/app.c:223-225 | the update pass calls nothing for a closing window, since window_update returns at once for one (line 157) |
| AppProperties.DeliverAllSilent | src/glutils/app.c:44-99 | no callback of a closing window runs during a poll |
| AppProperties.DeliverAllFrameOnly | src/glutils/app.c:44-99 | the callbacks run by a poll are only the user's `key`, `mouse` and `scroll` callbacks: no drawing, swap, set-up or tear-down call |
| AppProperties.DeliverAllInClick | src/glutils/app.c:64-86 | for a window that stays open, `in_click` after a batch is whether the last button input for it was a press, or unchanged without one |
| AppProperties.LoopStopsOnQuit | src/glutils/app.c:206-227 | an app_close during iteration k ends the loop after that iteration, which still updates every window and delivers the whole batch |
| AppProperties.LoopStopsWhenClosing | src/glutils/app.c:221-227 | with a window closing, the loop runs exactly one more iteration, and that iteration calls nothing for that window |
| AppProperties.LoopStopsAfterClose | src/glutils/app.c:221-227 | a close request during iteration k ends the loop after iteration k or k + 1 |
| AppProperties.LoopFrameOnly | src/glutils/app.c:221-227 | the main loop makes only frame calls: callbacks, drawing, swaps and polls |
| AppProperties.UpdateFromFrameOnly | src/glutils/app.c:223-225 | the update pass makes only frame calls: no set-up or tear-down call |
| AppProperties.InitCallsSubjects | src/glutils/app.c:106-154 | window_init creates its window once, runs the one-shot render init only when first, calls `init` once iff there is one, and finalises or destroys nothing |
| AppProperties.InitFromOrder | src/glutils/app.c:216-218 | the set-up loop creates the windows once each in index order, the one-shot render init runs exactly for window 0, and `init` runs once for each window that has one, in index order |
| AppProperties.InitFromIgnoresQuit | src/glutils/app.c:216-218 | the set-up loop neither reads nor writes quit |
| AppProperties.RunIgnoresEarlyClose | src/glutils/app.c:206-220 | an app_close before app_run is discarded: the run is the same as without it |
| AppProperties.FiniCallsSubjects | src/glutils/app.c:200-204 | window_fini destroys its window exactly once, runs `fini` once iff there is one, and passes it that window's user data |
| AppProperties.FiniFromOrder | src/glutils/app.c:231-233 | tear-down destroys every window once in index order, and runs `fini` once for each window that has one, in index order |
| AppProperties.FiniFromUserData | src/glutils/app.c:231-233 | every `fini` call of tear-down is for an existing window and gets that window's user data |
| AppProperties.InitFromNoTeardown | src/glutils/app.c:106-154 | set-up destroys and finalises nothing |
| AppProperties.RunTeardown | src/glutils/app.c:211-235 | over a whole app_run, each window is destroyed exactly once and in index order, and `fini` runs exactly once per configured window whose descriptor has one, in index order (FiniFromDescs) |
| AppProperties.FiniFromTeardownOnly | src/glutils/app.c:231-233 | the tear-down loop calls only `fini` and glfwDestroyWindow: it creates and initialises nothing |
| AppProperties.RunSetupOnly | src/glutils/app.c:211-235 | over a whole app_run, every window creation, render init and `init` call is made by the set-up loop: the main loop, render_fini and the tear-down make none |
| AppProperties.RunSetup | src/glutils/app.c:211-235 | over a whole app_run, each window is created exactly once in index order, the one-shot render init runs exactly once, for window 0, when there is a window, and `init` runs exactly once per configured window that has one, in index order (InitFromDescs) |
| AppProperties.DeliverAllKeeps | src/glutils/app.c:44-99 | no callback run during a poll changes a window's descriptor or user data |
| AppProperties.LoopKeeps | src/glutils/app.c:221-227 | the main loop keeps the window count, and every window keeps its descriptor and user data |
| AppProperties.RunWins | src/glutils/app.c:142-144 | at the end of app_run window j still has descriptor j and the user data `init` returned for it at set-up, or null without `init` |
| AppProperties.RunFiniUserData | src/glutils/app.c:201 | over a whole app_run, every `fini` call is for a configured window and receives what that window's `init` returned at set-up, or null without `init` |
| App.AppState.Close | src/glutils/app.c:206-209 | app_close raises the quit flag and changes nothing else |
| App.Window.constructor | src/glutils/app.c:106-154 | window_init makes a fresh GLFW window, leaves the window in state Initial, and appends its set-up calls: create at size × scale, move only if a position is set, render init only for the first shot, `init`, then the texture only for `crdraw` |
| App.Window.KeyCallback | src/glutils/app.c:44-62 | key_cb appends exactly the call TranslateKey decides |
| App.Window.MousePosCallback | src/glutils/app.c:64-71 | mouse_pos_cb appends the calls of CursorEvent and changes no state |
| App.Window.MouseCallback | src/glutils/app.c:73-86 | mouse_cb updates `in_click` in place and appends the calls of ButtonEvent |
| App.Window.ScrollCallback | src/glutils/app.c:88-99 | scroll_cb appends the calls of ScrollEvent |
| App.Window.Update | src/glutils/app.c:156-198 | window_update returns and appends what Update computes |
| App.Window.Fini | src/glutils/app.c:200-204 | window_fini calls `fini` when there is one, then destroys the window |
| App.Dispatch | src/glutils/app.c:134-139 | one input sent to the callback installed for it leaves the heap holding Deliver's world |
| App.PollEvents | src/glutils/app.c:226 | a poll leaves the heap holding Poll's world |
| App.UpdateStep | src/glutils/app.c:224 | one `quit \|= !window_update(...)` raises quit iff it was raised or the update returned false, and appends the update's calls |
| App.UpdateAll | src/glutils/app.c:223-225 | the inner loop `quit \|= !window_update(...)` leaves the heap holding UpdateFrom's world |
| App.AddWindow | src/glutils/app.c:217 | window_init for the next slot makes a fresh window with a fresh GLFW window, holding the value Initial gives, and appends the set-up calls of InitCalls |
| App.InitAll | src/glutils/app.c:215-218 | the set-up loop builds fresh windows holding InitFrom's world |
| App.Iterate | src/glutils/app.c:222-226 | one pass of the main loop leaves the heap holding Iteration's world |
| App.MainLoop | src/glutils/app.c:220-227 | the `while (!quit)` loop terminates and leaves the heap holding Loop's world |
| App.FiniAll | src/glutils/app.c:231-233 | the tear-down loop leaves the heap holding FiniFrom's world |
| App.Shutdown | src/glutils/app.c:229-233 | render_fini followed by the tear-down loop leaves quit alone and appends exactly what FiniFrom appends after the render_fini call |
| App.AppRun | src/glutils/app.c:211-235 | app_run ends with quit set and with exactly the trace of Run, so it has every property proved about Run |

## Left out

- GLFW, OpenGL, GLEW and cairo: window hints, context switches, clearing, surface and
  texture handling, buffer swaps and event polling appear only as trace entries, or not at
  all. Their effects on pixels are not modelled.
- `die` and `abort`: the failure of `glfwInit` and of window creation is not modelled. Both
  are taken to succeed.
- The GLEW error message at first shot is not modelled. It only writes to the log.
- `glfw_error` is not modelled. It only prints.
- The effective scale `w / desc->size.x` (app.c line 124) is not modelled. It is written and
  never read by the layer.
- `framebuffer_cb`, a single viewport call, is not modelled.
- `target_new` and `target_delete` are not modelled. They are foreign calls with no effect
  the layer observes.
- The title, the identifier and `init_ptr` of a descriptor are not modelled. They only
  reach foreign code.
- AppModel.ButtonEvent: the `mouse` callback gets the cursor position of the last cursor
  move delivered for the window, or GLFW's position at creation without one. The source
  asks GLFW for the live pointer position when the event arrives (app.c line 80). The model
  assumes the two agree.
- AppModel.ScrollEvent: the `scroll` callback gets the same last-delivered cursor position,
  where the source asks GLFW for the live one (app.c line 95). The model assumes the two
  agree.
- Window size: the source asks GLFW for the live size each time it uses it (app.c lines 40,
  161 and 194). The model assumes that size stays as GLFW reported it at creation; the
  windows are created non-resizable (line 111), but GLFW does not promise the size never
  changes.
- `App.Window.constructor`: records window_init's calls as one block, rather than
  appending them one GLFW call at a time.
- App.AppRun: requires that the input script ends the loop (a quit request or a close
  request). Without one, app_run never returns, and that case is not modelled.
- App.AppRun: takes the descriptors as a sequence rather than a pointer and a count. It
  does not model the `calloc` and `free` of the window array.
- AppModel.Deliver: a `QuitInput` raises quit whether or not any callback runs during the
  batch. It is not tied to a key, mouse or scroll callback of a window that is open and has
  one, so the script may hold one when no callback could call `app_close`, even with zero
  windows. `Run` then ends a run that the source would never end.
- App.Dispatch: `app_close` called from a draw callback is not modelled. Only an input
  callback calling `app_close` (`QuitInput`) is modelled.
- Concurrency: the layer is single-threaded, so none is modelled.
- `src/glutils/gl.c` and `src/playground/main.c` are not part of this model.
