/** app.c as the program it is: windows whose fields change in place, callbacks that GLFW
    invokes while polling, and app_run's set-up loop, main loop and tear-down loop.  Every
    method is proved against the functions of AppModel. */
module App {
  import opened Glfw
  import opened KeyInput
  import opened AppModel

  /** The process-wide state of the layer: the static `quit` flag, and the calls made so
      far into user callbacks and the graphics stack. */
  class AppState {
    var quit: bool
    ghost var trace: seq<Call>

    constructor ()
      ensures !quit && trace == []
    {
      quit := false;
      trace := [];
    }

    /** app_close: raise the quit flag; the main loop stops after its current iteration. */
    method Close()
      modifies this`quit
      ensures quit
    {
      quit := true;
    }
  }

  /** window_t: the GLFW window, the descriptor, the user data and the drag flag; `index`
      is the window's slot in the array app_run allocates. */
  class Window {
    const handle: NativeWindow
    const index: nat
    const desc: Desc
    const userData: int
    var inClick: bool

    /** The window as the pure model sees it. */
    ghost function Value(): WinVal
      reads this, handle
    {
      WinVal(desc, userData, inClick, handle.shouldClose, handle.size, handle.cursor)
    }

    /** window_init for slot `index`; GLFW's view of the new window and the user data of
        `init` come from `env`. */
    constructor (app: AppState, index: nat, desc: Desc, firstShot: bool, env: WinEnv)
      modifies app`trace
      ensures fresh(handle) && this.index == index
      ensures Value() == Initial(desc, env)
      ensures app.trace == old(app.trace) + InitCalls(index, desc, firstShot)
    {
      var h := new NativeWindow(env.size, env.cursor);
      handle := h;
      this.index := index;
      this.desc := desc;
      userData := if desc.hasInit then env.userData else 0;
      inClick := false;
      new;
      app.trace := app.trace + InitCalls(index, desc, firstShot);
    }

    /** key_cb: at most one call of the `key` callback, decided by TranslateKey. */
    method KeyCallback(app: AppState, key: int, scancode: int, action: int, mods: bv32)
      modifies app`trace
      ensures app.trace == old(app.trace) + KeyEvent(Value(), index, key, scancode, action, mods)
    {
      match TranslateKey(handle.shouldClose, desc.hasKey, key, scancode, action, mods)
      case Drop =>
      case Dispatch(a, ctrl, code, sc) =>
        app.trace := app.trace + [KeyCb(index, userData, a, ctrl, code, sc)];
    }

    /** mouse_pos_cb: GLFW has already recorded the new cursor position. */
    method MousePosCallback(app: AppState, pos: Vec2)
      modifies app`trace
      ensures app.trace == old(app.trace) + CursorEvent(Value(), index, pos).calls
    {
      if handle.shouldClose {
        return;
      }
      if !inClick {
        return;
      }
      if desc.hasMouse {
        app.trace := app.trace + [MouseCb(index, userData, ActionMove, pos, handle.size)];
      }
    }

    /** mouse_cb: the button and the modifiers play no part. */
    method MouseCallback(app: AppState, button: int, action: int, mods: bv32)
      modifies this`inClick, app`trace
      ensures Value() == ButtonEvent(old(Value()), index, action).win
      ensures app.trace == old(app.trace) + ButtonEvent(old(Value()), index, action).calls
    {
      if handle.shouldClose {
        return;
      }
      var pos := handle.cursor;
      inClick := action == Press;
      if desc.hasMouse {
        app.trace := app.trace + [MouseCb(index, userData, action, pos, handle.size)];
      }
    }

    /** scroll_cb. */
    method ScrollCallback(app: AppState, delta: Vec2)
      modifies app`trace
      ensures app.trace == old(app.trace) + ScrollEvent(Value(), index, delta)
    {
      if handle.shouldClose {
        return;
      }
      var pos := handle.cursor;
      if desc.hasScroll {
        app.trace := app.trace + [ScrollCb(index, userData, pos, delta)];
      }
    }

    /** window_update: false, with nothing drawn, once the window is closing. */
    method Update(app: AppState) returns (open: bool)
      modifies app`trace
      ensures open == AppModel.Update(Value(), index).open
      ensures app.trace == old(app.trace) + AppModel.Update(Value(), index).calls
    {
      if handle.shouldClose {
        return false;
      }
      if desc.hasCrdraw {
        var size := desc.size;
        app.trace := app.trace + [CrDrawCb(index, userData, size), BlitSurface(index, size)];
      } else if desc.hasDraw {
        app.trace := app.trace + [DrawCb(index, userData, handle.size)];
      }
      app.trace := app.trace + [SwapBuffers(index)];
      return true;
    }

    /** window_fini. */
    method Fini(app: AppState)
      modifies app`trace
      ensures app.trace == old(app.trace) + FiniCalls(Value(), index)
    {
      if desc.hasFini {
        app.trace := app.trace + [FiniCb(index, userData)];
      }
      app.trace := app.trace + [DestroyWindow(index)];
    }
  }

  ghost function Windows(ws: seq<Window>): set<Window> {
    set w | w in ws
  }

  ghost function Handles(ws: seq<Window>): set<NativeWindow> {
    set w | w in ws :: w.handle
  }

  /** Window i sits in slot i, has a GLFW window of its own, and holds `wins[i]`. */
  ghost predicate Holds(ws: seq<Window>, wins: seq<WinVal>)
    reads ws, Handles(ws)
  {
    && |ws| == |wins|
    && (forall i :: 0 <= i < |ws| ==> ws[i].index == i)
    && (forall i, j :: 0 <= i < j < |ws| ==> ws[i].handle != ws[j].handle)
    && (forall i :: 0 <= i < |ws| ==> ws[i].Value() == wins[i])
  }

  /** The heap holds the world `s`: the windows hold its window values, and the flag and
      the trace agree. */
  ghost predicate Models(app: AppState, ws: seq<Window>, s: World)
    reads app, ws, Handles(ws)
  {
    Holds(ws, s.wins) && app.quit == s.quit && app.trace == s.trace
  }

  /** A window with a GLFW window of its own, placed in the next slot. */
  lemma HoldsPush(ws: seq<Window>, wins: seq<WinVal>, w: Window)
    requires Holds(ws, wins) && w.index == |ws| && w.handle !in Handles(ws)
    ensures Holds(ws + [w], wins + [w.Value()])
    ensures Windows(ws + [w]) == Windows(ws) + {w}
    ensures Handles(ws + [w]) == Handles(ws) + {w.handle}
  {
    assert forall i :: 0 <= i < |ws| ==> ws[i].handle in Handles(ws);
  }

  /** GLFW delivering one input: it records a cursor move or a close request on the
      window, then runs the callback app.c installed; a callback that calls app_close
      shows up as QuitInput. */
  method Dispatch(app: AppState, ws: seq<Window>, e: Input, ghost s: World)
    requires Models(app, ws, s) && InputFor(e, |ws|)
    modifies app, Windows(ws), Handles(ws)
    ensures Models(app, ws, Deliver(s, e))
  {
    match e
    case KeyPress(i, key, scancode, action, mods) =>
      ws[i].KeyCallback(app, key, scancode, action, mods);
    case ButtonInput(i, button, action, mods) =>
      ws[i].MouseCallback(app, button, action, mods);
    case CursorInput(i, pos) =>
      ws[i].handle.cursor := pos;
      ws[i].MousePosCallback(app, pos);
    case ScrollInput(i, delta) =>
      ws[i].ScrollCallback(app, delta);
    case CloseInput(i) =>
      ws[i].handle.shouldClose := true;
    case QuitInput =>
      app.Close();
  }

  /** glfwPollEvents, delivering batch b in order. */
  method PollEvents(app: AppState, ws: seq<Window>, b: seq<Input>, ghost s: World)
    requires Models(app, ws, s) && BatchFor(b, |ws|)
    modifies app, Windows(ws), Handles(ws)
    ensures Models(app, ws, Poll(s, b))
  {
    app.trace := app.trace + [AppModel.PollEvents];
    ghost var cur := s.(trace := app.trace);
    ghost var goal := Poll(s, b);
    var j := 0;
    while j < |b|
      invariant 0 <= j <= |b|
      invariant Models(app, ws, cur)
      invariant BatchFor(b[j..], |cur.wins|)
      invariant DeliverAll(cur, b[j..]) == goal
    {
      DeliverAllNext(cur, b, j);
      Dispatch(app, ws, b[j], cur);
      cur := Deliver(cur, b[j]);
      j := j + 1;
    }
  }

  /** One step of the inner loop of app_run: `quit |= !window_update(window)`. */
  method UpdateStep(app: AppState, w: Window)
    modifies app
    ensures var f := AppModel.Update(w.Value(), w.index);
            app.quit == (old(app.quit) || !f.open) && app.trace == old(app.trace) + f.calls
  {
    var open := w.Update(app);
    app.quit := app.quit || !open;
  }

  /** The inner loop of app_run: every window is updated, since `|=` does not stop at the
      first closed window. */
  method UpdateAll(app: AppState, ws: seq<Window>, ghost s: World)
    requires Models(app, ws, s)
    modifies app
    ensures Models(app, ws, UpdateFrom(s, 0))
  {
    ghost var cur := s;
    ghost var goal := UpdateFrom(s, 0);
    var i := 0;
    while i < |ws|
      invariant 0 <= i <= |ws|
      invariant cur.wins == s.wins && unchanged(ws) && unchanged(Handles(ws))
      invariant app.quit == cur.quit && app.trace == cur.trace
      invariant UpdateFrom(cur, i) == goal
    {
      assert ws[i].handle in Handles(ws);
      assert ws[i].Value() == old(ws[i].Value()) == cur.wins[i];
      UpdateFromNext(cur, i);
      UpdateStep(app, ws[i]);
      cur := World(cur.wins, cur.quit || !AppModel.Update(cur.wins[i], i).open, app.trace);
      i := i + 1;
    }
  }

  /** The set-up loop of app_run: window_init for each descriptor, the first one being
      the first shot. */
  method InitAll(app: AppState, descs: seq<Desc>, env: seq<WinEnv>) returns (ws: seq<Window>)
    requires |descs| == |env|
    modifies app`trace
    ensures fresh(Windows(ws)) && fresh(Handles(ws))
    ensures Models(app, ws, InitFrom(World([], app.quit, old(app.trace)), descs, env))
  {
    ghost var s0 := World([], app.quit, app.trace);
    ghost var s := s0;
    ghost var goal := InitFrom(s0, descs, env);
    ws := [];
    var i := 0;
    while i < |descs|
      invariant 0 <= i <= |descs| && |s.wins| == i
      invariant forall o :: o in Windows(ws) ==> !old(allocated(o))
      invariant forall o :: o in Handles(ws) ==> !old(allocated(o))
      invariant Holds(ws, s.wins) && app.trace == s.trace && app.quit == s.quit == s0.quit
      invariant InitFrom(s, descs, env) == goal
    {
      var w := AddWindow(app, ws, descs[i], i == 0, env[i], s.wins);
      ws := ws + [w];
      InitWindowNext(s, descs, env);
      s := InitWindow(s, descs[i], env[i]);
      i := i + 1;
    }
  }

  /** window_init for the next slot of the window array. */
  method AddWindow(app: AppState, ws: seq<Window>, d: Desc, firstShot: bool, e: WinEnv, ghost wins: seq<WinVal>)
      returns (w: Window)
    requires Holds(ws, wins)
    modifies app`trace
    ensures fresh(w) && fresh(w.handle)
    ensures Holds(ws + [w], wins + [Initial(d, e)])
    ensures Windows(ws + [w]) == Windows(ws) + {w} && Handles(ws + [w]) == Handles(ws) + {w.handle}
    ensures app.trace == old(app.trace) + InitCalls(|ws|, d, firstShot)
  {
    w := new Window(app, |ws|, d, firstShot, e);
    assert Holds(ws, wins);
    HoldsPush(ws, wins, w);
  }

  /** One pass of the main loop: update every window, then poll. */
  method Iterate(app: AppState, ws: seq<Window>, script: seq<seq<Input>>, k: nat, ghost s: World)
    requires Models(app, ws, s) && ScriptFor(script, |s.wins|)
    modifies app, Windows(ws), Handles(ws)
    ensures Models(app, ws, Iteration(s, script, k))
  {
    UpdateAll(app, ws, s);
    PollEvents(app, ws, Batch(script, k), UpdateFrom(s, 0));
  }

  /** `while (!quit)`, entered with quit unset; k counts the polls made so far. */
  method MainLoop(app: AppState, ws: seq<Window>, script: seq<seq<Input>>, ghost s0: World)
    requires Models(app, ws, s0) && !s0.quit
    requires ScriptFor(script, |s0.wins|) && WillStop(s0, script, 0)
    modifies app, Windows(ws), Handles(ws)
    ensures Models(app, ws, Loop(s0, script, 0))
  {
    ghost var s := s0;
    ghost var goal := Loop(s0, script, 0);
    var k := 0;
    while !app.quit
      invariant Models(app, ws, s) && |s.wins| == |s0.wins|
      invariant !app.quit ==> k <= |script| && WillStop(s, script, k) && Loop(s, script, k) == goal
      invariant app.quit ==> s == goal
      decreases if app.quit then 0 else |script| - k + 1
    {
      LoopNext(s, script, k);
      Iterate(app, ws, script, k, s);
      s := Iteration(s, script, k);
      k := k + 1;
    }
  }

  /** The tear-down loop of app_run: window_fini for each window, in order. */
  method FiniAll(app: AppState, ws: seq<Window>, ghost s: World)
    requires Models(app, ws, s)
    modifies app`trace
    ensures Models(app, ws, FiniFrom(s, 0))
  {
    ghost var cur := s;
    ghost var goal := FiniFrom(s, 0);
    var i := 0;
    while i < |ws|
      invariant 0 <= i <= |ws|
      invariant cur.wins == s.wins && cur.quit == s.quit && Models(app, ws, cur)
      invariant FiniFrom(cur, i) == goal
    {
      ws[i].Fini(app);
      FiniFromNext(cur, i);
      cur := cur.(trace := app.trace);
      i := i + 1;
    }
  }

  /** app_run: set up every window, run the main loop until quit is raised, shut the
      renderer down, then tear every window down. */
  method AppRun(app: AppState, descs: seq<Desc>, env: seq<WinEnv>, script: seq<seq<Input>>)
    requires RunPre(descs, env, script)
    modifies app
    ensures app.quit
    ensures app.trace == Run(old(app.trace), old(app.quit), descs, env, script).trace
  {
    ghost var s0 := InitFrom(World([], app.quit, app.trace), descs, env);
    var ws := InitAll(app, descs, env);
    assert Holds(ws, s0.wins);
    app.quit := false;
    ghost var s1 := s0.(quit := false);
    assert Models(app, ws, s1);
    assert |s1.wins| == |descs|;
    assert WillStop(s1, script, 0);
    MainLoop(app, ws, script, s1);
    Shutdown(app, ws, Loop(s1, script, 0));
  }

  /** The end of app_run: render_fini, then window_fini for each window. */
  method Shutdown(app: AppState, ws: seq<Window>, ghost s: World)
    requires Models(app, ws, s)
    modifies app`trace
    ensures app.quit == s.quit
    ensures app.trace == FiniFrom(s.(trace := s.trace + [RenderFini]), 0).trace
  {
    app.trace := app.trace + [RenderFini];
    FiniAll(app, ws, s.(trace := s.trace + [RenderFini]));
  }
}
