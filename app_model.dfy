/** The application layer of app.c as pure state transitions.  A World holds the state of
    every window, the process-wide quit flag, and the trace of the calls the layer has made
    so far into user callbacks and into the graphics stack. */
module AppModel {
  import opened Glfw
  import opened KeyInput

  /** ACTION_MOVE of app_action_t: the action reported for a cursor move while dragging. */
  const ActionMove: int := 10

  /** app_window_desc_t, with each optional callback present or absent.  The title, the
      identifier and the pointer handed to `init` only reach code outside the model. */
  datatype Desc = Desc(
    size: Vec2, pos: Vec2, scale: int,
    hasInit: bool, hasFini: bool, hasCrdraw: bool, hasDraw: bool,
    hasMouse: bool, hasKey: bool, hasScroll: bool)

  /** What code outside the model supplies for one window: the size and cursor position
      GLFW reports once the window exists, and the user data its `init` callback returns. */
  datatype WinEnv = WinEnv(size: Vec2, cursor: Vec2, userData: int)

  /** One window as the layer sees it: the descriptor, the user data (0 for a null
      pointer), the drag flag `in_click`, and GLFW's close flag, size and cursor. */
  datatype WinVal = WinVal(desc: Desc, userData: int, inClick: bool, closing: bool, size: Vec2, cursor: Vec2)

  /** The calls the layer makes, each tagged with the index of its window. */
  datatype Call =
    | CreateWindow(win: nat, width: int, height: int)
    | SetWindowPos(win: nat, x: int, y: int)
    | RenderInit(win: nat)
    | InitCb(win: nat)
    | CreateTexture(win: nat, size: Vec2)
    | KeyCb(win: nat, userData: int, action: int, ctrl: bool, code: int, scancode: int)
    | MouseCb(win: nat, userData: int, action: int, pos: Vec2, size: Vec2)
    | ScrollCb(win: nat, userData: int, pos: Vec2, delta: Vec2)
    | CrDrawCb(win: nat, userData: int, size: Vec2)
    | BlitSurface(win: nat, size: Vec2)
    | DrawCb(win: nat, userData: int, size: Vec2)
    | SwapBuffers(win: nat)
    | PollEvents
    | RenderFini
    | FiniCb(win: nat, userData: int)
    | DestroyWindow(win: nat)

  /** What GLFW delivers while polling: input for a window, the user asking a window to
      close, or application code calling `app_close()` from one of its callbacks. */
  datatype Input =
    | KeyPress(win: nat, key: int, scancode: int, action: int, mods: bv32)
    | ButtonInput(win: nat, button: int, action: int, mods: bv32)
    | CursorInput(win: nat, pos: Vec2)
    | ScrollInput(win: nat, delta: Vec2)
    | CloseInput(win: nat)
    | QuitInput

  datatype World = World(wins: seq<WinVal>, quit: bool, trace: seq<Call>)

  /** The new state of one window and the calls made while handling one event. */
  datatype Step = Step(win: WinVal, calls: seq<Call>)

  /** The result of one window's frame update and the calls it made. */
  datatype Frame = Frame(open: bool, calls: seq<Call>)

  predicate InputFor(e: Input, n: nat) {
    e.QuitInput? || e.win < n
  }

  predicate BatchFor(b: seq<Input>, n: nat) {
    forall e :: e in b ==> InputFor(e, n)
  }

  predicate ScriptFor(script: seq<seq<Input>>, n: nat) {
    forall b :: b in script ==> BatchFor(b, n)
  }

  /** An input that ends the main loop: a quit request, or a close request for a window. */
  predicate Closer(e: Input, n: nat) {
    e.QuitInput? || (e.CloseInput? && e.win < n)
  }

  predicate HasCloser(b: seq<Input>, n: nat) {
    exists e :: e in b && Closer(e, n)
  }

  predicate AnyClosing(wins: seq<WinVal>) {
    exists i :: 0 <= i < |wins| && wins[i].closing
  }

  /** The main loop is bound to stop: some window is already closing, or a later poll
      delivers an input that ends the loop. */
  predicate WillStop(s: World, script: seq<seq<Input>>, k: nat) {
    AnyClosing(s.wins) || exists j :: k <= j < |script| && HasCloser(script[j], |s.wins|)
  }

  // ---------------------------------------------------------------- input callbacks

  /** key_cb for window i. */
  function KeyEvent(w: WinVal, i: nat, key: int, scancode: int, action: int, mods: bv32): (r: seq<Call>)
    ensures r != [] <==> !w.closing && key != KeyUnknown && !Held(mods, ModControl) && w.desc.hasKey
    ensures r != [] ==> r == [KeyCb(i, w.userData, action, Held(mods, ModSuper), ExpectedCode(key, Held(mods, ModShift)), scancode)]
  {
    match TranslateKey(w.closing, w.desc.hasKey, key, scancode, action, mods)
    case Drop => []
    case Dispatch(a, ctrl, code, sc) => [KeyCb(i, w.userData, a, ctrl, code, sc)]
  }

  /** mouse_cb for window i: the drag flag follows the button whether or not a `mouse`
      callback exists, and the callback sees the cursor and the live window size. */
  function ButtonEvent(w: WinVal, i: nat, action: int): (r: Step)
    ensures r.win == (if w.closing then w else w.(inClick := action == Press))
    ensures r.calls != [] <==> !w.closing && w.desc.hasMouse
    ensures r.calls != [] ==> r.calls == [MouseCb(i, w.userData, action, w.cursor, w.size)]
  {
    if w.closing then Step(w, [])
    else
      var w' := w.(inClick := action == Press);
      Step(w', if w.desc.hasMouse then [MouseCb(i, w.userData, action, w.cursor, w.size)] else [])
  }

  /** A cursor move on window i: GLFW records the position, and mouse_pos_cb forwards the
      move only while a button is held on a window that is not closing. */
  function CursorEvent(w: WinVal, i: nat, pos: Vec2): (r: Step)
    ensures r.win == w.(cursor := pos)
    ensures r.calls != [] <==> !w.closing && w.inClick && w.desc.hasMouse
    ensures r.calls != [] ==> r.calls == [MouseCb(i, w.userData, ActionMove, pos, w.size)]
  {
    var calls := if w.closing || !w.inClick || !w.desc.hasMouse then []
                 else [MouseCb(i, w.userData, ActionMove, pos, w.size)];
    Step(w.(cursor := pos), calls)
  }

  /** scroll_cb for window i: the callback sees the cursor position and the delta. */
  function ScrollEvent(w: WinVal, i: nat, delta: Vec2): (r: seq<Call>)
    ensures r != [] <==> !w.closing && w.desc.hasScroll
    ensures r != [] ==> r == [ScrollCb(i, w.userData, w.cursor, delta)]
  {
    if w.closing || !w.desc.hasScroll then [] else [ScrollCb(i, w.userData, w.cursor, delta)]
  }

  /** One input delivered during polling. */
  function Deliver(s: World, e: Input): (r: World)
    requires InputFor(e, |s.wins|)
    ensures |r.wins| == |s.wins| && s.trace <= r.trace
    ensures r.quit == (s.quit || e.QuitInput?)
  {
    match e
    case KeyPress(i, key, scancode, action, mods) =>
      s.(trace := s.trace + KeyEvent(s.wins[i], i, key, scancode, action, mods))
    case ButtonInput(i, _, action, _) =>
      var st := ButtonEvent(s.wins[i], i, action);
      s.(wins := s.wins[i := st.win], trace := s.trace + st.calls)
    case CursorInput(i, pos) =>
      var st := CursorEvent(s.wins[i], i, pos);
      s.(wins := s.wins[i := st.win], trace := s.trace + st.calls)
    case ScrollInput(i, delta) =>
      s.(trace := s.trace + ScrollEvent(s.wins[i], i, delta))
    case CloseInput(i) =>
      s.(wins := s.wins[i := s.wins[i].(closing := true)])
    case QuitInput =>
      s.(quit := true)
  }

  /** The inputs of one batch, in order. */
  function DeliverAll(s: World, b: seq<Input>): (r: World)
    requires BatchFor(b, |s.wins|)
    ensures |r.wins| == |s.wins| && s.trace <= r.trace
    decreases |b|
  {
    if b == [] then s
    else
      var d := Deliver(s, b[0]);
      var r := DeliverAll(d, b[1..]);
      assert s.trace <= d.trace <= r.trace;
      r
  }

  /** glfwPollEvents: one batch of inputs. */
  function Poll(s: World, b: seq<Input>): (r: World)
    requires BatchFor(b, |s.wins|)
    ensures |r.wins| == |s.wins| && s.trace <= r.trace
    ensures |r.trace| > |s.trace| && r.trace[|s.trace|] == PollEvents
  {
    DeliverAll(s.(trace := s.trace + [PollEvents]), b)
  }

  // ---------------------------------------------------------------- frames

  /** window_update for window i. */
  function Update(w: WinVal, i: nat): (r: Frame)
    ensures r.open == !w.closing
    ensures !r.open ==> r.calls == []
    ensures r.open ==> |r.calls| > 0 && r.calls[|r.calls| - 1] == SwapBuffers(i)
    ensures CrDrawCb(i, w.userData, w.desc.size) in r.calls <==> r.open && w.desc.hasCrdraw
    ensures DrawCb(i, w.userData, w.size) in r.calls <==> r.open && !w.desc.hasCrdraw && w.desc.hasDraw
  {
    if w.closing then Frame(false, [])
    else if w.desc.hasCrdraw then
      Frame(true, [CrDrawCb(i, w.userData, w.desc.size), BlitSurface(i, w.desc.size), SwapBuffers(i)])
    else if w.desc.hasDraw then
      Frame(true, [DrawCb(i, w.userData, w.size), SwapBuffers(i)])
    else
      Frame(true, [SwapBuffers(i)])
  }

  predicate IsDraw(c: Call) {
    c.CrDrawCb? || c.DrawCb?
  }

  /** A frame update calls at most one draw callback, with the arguments window_update
      gives it, and otherwise only blits and swaps for its own window. */
  lemma UpdateDraws(w: WinVal, i: nat)
    ensures var cs := Update(w, i).calls;
            && (forall c :: c in cs && c.CrDrawCb? ==> c == CrDrawCb(i, w.userData, w.desc.size))
            && (forall c :: c in cs && c.DrawCb? ==> c == DrawCb(i, w.userData, w.size))
            && (forall j, k :: 0 <= j < k < |cs| ==> !(IsDraw(cs[j]) && IsDraw(cs[k])))
            && (forall c :: c in cs ==> (IsDraw(c) || c.BlitSurface? || c.SwapBuffers?) && c.win == i)
  {
  }

  /** The inner loop of app_run from window i on: `quit |= !window_update(...)`. */
  function UpdateFrom(s: World, i: nat): (r: World)
    requires i <= |s.wins|
    ensures r.wins == s.wins && s.trace <= r.trace
    decreases |s.wins| - i
  {
    if i == |s.wins| then s
    else
      var f := Update(s.wins[i], i);
      var t := World(s.wins, s.quit || !f.open, s.trace + f.calls);
      var r := UpdateFrom(t, i + 1);
      assert s.trace <= t.trace <= r.trace;
      r
  }

  /** The batch delivered by the k-th poll; nothing once the script is over. */
  function Batch(script: seq<seq<Input>>, k: nat): seq<Input> {
    if k < |script| then script[k] else []
  }

  /** One iteration of the main loop: update every window, then poll. */
  function Iteration(s: World, script: seq<seq<Input>>, k: nat): (r: World)
    requires ScriptFor(script, |s.wins|)
    ensures |r.wins| == |s.wins| && s.trace <= r.trace
  {
    var u := UpdateFrom(s, 0);
    Poll(u, Batch(script, k))
  }

  /** `while (!quit) { ... }` entered with quit unset at iteration k. */
  function Loop(s: World, script: seq<seq<Input>>, k: nat): (r: World)
    requires !s.quit && ScriptFor(script, |s.wins|) && WillStop(s, script, k)
    ensures |r.wins| == |s.wins| && s.trace <= r.trace && r.quit
    decreases |script| - k
  {
    var p := Iteration(s, script, k);
    if p.quit then p
    else
      LoopProgress(s, script, k);
      var r := Loop(p, script, k + 1);
      assert s.trace <= p.trace <= r.trace;
      r
  }

  // ---------------------------------------------------------------- set-up and tear-down

  /** C's conversion of a double to an int: truncation toward zero. */
  function Trunc(x: real): int {
    if x >= 0.0 then x.Floor else -((-x).Floor)
  }

  /** glfwCreateWindow for window i: the configured size times the scale, truncated. */
  function CreateCall(i: nat, d: Desc): Call {
    CreateWindow(i, Trunc(d.size.x * d.scale as real), Trunc(d.size.y * d.scale as real))
  }

  /** glfwSetWindowPos for window i at the configured position, truncated. */
  function MoveCall(i: nat, d: Desc): Call {
    SetWindowPos(i, Trunc(d.pos.x), Trunc(d.pos.y))
  }

  /** A call made only when `cond` holds. */
  function Opt(cond: bool, c: Call): seq<Call> {
    if cond then [c] else []
  }

  /** The calls window_init makes for window i. */
  function InitCalls(i: nat, d: Desc, firstShot: bool): (r: seq<Call>)
  {
    [CreateCall(i, d)]
    + Opt(d.pos.x != 0.0 || d.pos.y != 0.0, MoveCall(i, d))
    + Opt(firstShot, RenderInit(i))
    + Opt(d.hasInit, InitCb(i))
    + Opt(d.hasCrdraw, CreateTexture(i, d.size))
  }

  /** window_init creates its window first, makes calls for that window only, runs the
      one-shot render set-up only when first, and calls `init` and creates the texture
      exactly when the descriptor asks for them. */
  lemma InitCallsShape(i: nat, d: Desc, firstShot: bool)
    ensures var cs := InitCalls(i, d, firstShot);
            && |cs| > 0 && cs[0] == CreateCall(i, d)
            && (forall c :: c in cs ==> (c.CreateWindow? || c.SetWindowPos? || c.RenderInit? || c.InitCb? || c.CreateTexture?) && c.win == i)
            && (RenderInit(i) in cs <==> firstShot)
            && (InitCb(i) in cs <==> d.hasInit)
            && (CreateTexture(i, d.size) in cs <==> d.hasCrdraw)
  {
  }

  /** A window right after window_init: zero-filled by calloc, then given its descriptor
      and the user data of `init` (a null pointer when there is no `init`). */
  function Initial(d: Desc, e: WinEnv): (r: WinVal)
    ensures r.desc == d && !r.inClick && !r.closing
    ensures !d.hasInit ==> r.userData == 0
  {
    WinVal(d, if d.hasInit then e.userData else 0, false, false, e.size, e.cursor)
  }

  /** window_init for the next slot of the window array; only slot 0 is the first shot. */
  function InitWindow(s: World, d: Desc, e: WinEnv): (r: World)
    ensures |r.wins| == |s.wins| + 1 && r.quit == s.quit && s.trace <= r.trace
  {
    var i := |s.wins|;
    World(s.wins + [Initial(d, e)], s.quit, s.trace + InitCalls(i, d, i == 0))
  }

  /** The set-up loop of app_run from slot |s.wins| on. */
  function InitFrom(s: World, descs: seq<Desc>, env: seq<WinEnv>): (r: World)
    requires |s.wins| <= |descs| == |env|
    ensures |r.wins| == |descs| && r.quit == s.quit && s.trace <= r.trace
    decreases |descs| - |s.wins|
  {
    if |s.wins| == |descs| then s
    else
      var t := InitWindow(s, descs[|s.wins|], env[|s.wins|]);
      var r := InitFrom(t, descs, env);
      assert s.trace <= t.trace <= r.trace;
      r
  }

  /** The calls window_fini makes for window i. */
  function FiniCalls(w: WinVal, i: nat): (r: seq<Call>)
    ensures |r| > 0 && r[|r| - 1] == DestroyWindow(i)
    ensures FiniCb(i, w.userData) in r <==> w.desc.hasFini
  {
    Opt(w.desc.hasFini, FiniCb(i, w.userData)) + [DestroyWindow(i)]
  }

  /** The tear-down loop of app_run from window i on. */
  function FiniFrom(s: World, i: nat): (r: World)
    requires i <= |s.wins|
    ensures r.wins == s.wins && r.quit == s.quit && s.trace <= r.trace
    decreases |s.wins| - i
  {
    if i == |s.wins| then s
    else
      var t := s.(trace := s.trace + FiniCalls(s.wins[i], i));
      var r := FiniFrom(t, i + 1);
      assert s.trace <= t.trace <= r.trace;
      r
  }

  /** What app_run needs: one environment per descriptor, inputs only for existing
      windows, and some input that ends the main loop (otherwise app_run never returns). */
  predicate RunPre(descs: seq<Desc>, env: seq<WinEnv>, script: seq<seq<Input>>) {
    |descs| == |env| && ScriptFor(script, |descs|)
    && exists j :: 0 <= j < |script| && HasCloser(script[j], |descs|)
  }

  /** app_run, started with trace t0 and quit flag q0. */
  function Run(t0: seq<Call>, q0: bool, descs: seq<Desc>, env: seq<WinEnv>, script: seq<seq<Input>>): (r: World)
    requires RunPre(descs, env, script)
    ensures |r.wins| == |descs| && r.quit && t0 <= r.trace
  {
    var s0 := InitFrom(World([], q0, t0), descs, env);
    var s1 := Loop(s0.(quit := false), script, 0);
    var s2 := s1.(trace := s1.trace + [RenderFini]);
    var r := FiniFrom(s2, 0);
    assert t0 <= s0.trace <= s1.trace <= s2.trace <= r.trace;
    r
  }

  // ---------------------------------------------------------------- one step of each loop

  lemma DeliverAllNext(s: World, b: seq<Input>, j: nat)
    requires j < |b| && BatchFor(b[j..], |s.wins|)
    ensures InputFor(b[j], |s.wins|) && BatchFor(b[j + 1..], |s.wins|)
    ensures DeliverAll(s, b[j..]) == DeliverAll(Deliver(s, b[j]), b[j + 1..])
  {
    assert b[j..][0] == b[j] && b[j..][1..] == b[j + 1..];
    assert b[j] in b[j..];
    assert forall e :: e in b[j + 1..] ==> e in b[j..];
  }

  lemma UpdateFromNext(s: World, i: nat)
    requires i < |s.wins|
    ensures var f := Update(s.wins[i], i);
            UpdateFrom(s, i) == UpdateFrom(World(s.wins, s.quit || !f.open, s.trace + f.calls), i + 1)
  {
  }

  /** One iteration of the main loop: it is the last one exactly when it raises quit. */
  lemma LoopNext(s: World, script: seq<seq<Input>>, k: nat)
    requires !s.quit && ScriptFor(script, |s.wins|) && WillStop(s, script, k)
    ensures var p := Iteration(s, script, k);
            && |p.wins| == |s.wins|
            && (p.quit ==> Loop(s, script, k) == p)
            && (!p.quit ==> k < |script| && WillStop(p, script, k + 1) && Loop(s, script, k) == Loop(p, script, k + 1))
  {
    LoopProgress(s, script, k);
  }

  /** One step of the set-up loop, spelled out: window_init appends one window and its
      calls, and the rest of the loop continues from there. */
  lemma InitWindowNext(s: World, descs: seq<Desc>, env: seq<WinEnv>)
    requires |s.wins| < |descs| == |env|
    ensures var i := |s.wins|;
            var t := InitWindow(s, descs[i], env[i]);
            && t.wins == s.wins + [Initial(descs[i], env[i])] && t.quit == s.quit
            && t.trace == s.trace + InitCalls(i, descs[i], i == 0)
            && InitFrom(s, descs, env) == InitFrom(t, descs, env)
  {
  }

  /** Set-up keeps the windows already there and adds one window per remaining
      descriptor, each as window_init leaves it. */
  lemma {:induction false} InitFromWins(s: World, descs: seq<Desc>, env: seq<WinEnv>)
    requires |s.wins| <= |descs| == |env|
    ensures InitFrom(s, descs, env).wins[..|s.wins|] == s.wins
    ensures forall j :: |s.wins| <= j < |descs| ==> InitFrom(s, descs, env).wins[j] == Initial(descs[j], env[j])
    decreases |descs| - |s.wins|
  {
    if |s.wins| < |descs| {
      var t := InitWindow(s, descs[|s.wins|], env[|s.wins|]);
      InitFromWins(t, descs, env);
      assert InitFrom(s, descs, env) == InitFrom(t, descs, env);
      assert t.wins[..|s.wins|] == s.wins;
    }
  }

  /** One input changes at most the window it is for, and never a window's descriptor or
      user data. */
  lemma DeliverOthers(s: World, e: Input, j: nat)
    requires InputFor(e, |s.wins|) && j < |s.wins|
    ensures e.QuitInput? || j != e.win ==> Deliver(s, e).wins[j] == s.wins[j]
    ensures Deliver(s, e).wins[j].desc == s.wins[j].desc && Deliver(s, e).wins[j].userData == s.wins[j].userData
  {
  }

  lemma FiniFromNext(s: World, i: nat)
    requires i < |s.wins|
    ensures FiniFrom(s, i) == FiniFrom(s.(trace := s.trace + FiniCalls(s.wins[i], i)), i + 1)
  {
  }

  // ---------------------------------------------------------------- loop termination

  /** Quit is raised by an update exactly when it was raised already or some window
      from i on is closing; the windows are left as they were. */
  lemma {:induction false} UpdateFromQuit(s: World, i: nat)
    requires i <= |s.wins|
    ensures UpdateFrom(s, i).quit <==> s.quit || exists j :: i <= j < |s.wins| && s.wins[j].closing
    decreases |s.wins| - i
  {
    if i < |s.wins| {
      var f := Update(s.wins[i], i);
      UpdateFromQuit(World(s.wins, s.quit || !f.open, s.trace + f.calls), i + 1);
    }
  }

  /** Polling raises quit exactly when it was raised or the batch holds a quit request. */
  lemma {:induction false} DeliverAllQuit(s: World, b: seq<Input>)
    requires BatchFor(b, |s.wins|)
    ensures DeliverAll(s, b).quit <==> s.quit || QuitInput in b
    decreases |b|
  {
    if b != [] {
      assert b == [b[0]] + b[1..];
      DeliverAllQuit(Deliver(s, b[0]), b[1..]);
    }
  }

  /** A window is closing after a batch exactly when it was closing before or the batch
      asks it to close. */
  lemma {:induction false} DeliverAllClosing(s: World, b: seq<Input>, i: nat)
    requires BatchFor(b, |s.wins|) && i < |s.wins|
    ensures DeliverAll(s, b).wins[i].closing <==> s.wins[i].closing || CloseInput(i) in b
    decreases |b|
  {
    if b != [] {
      assert b == [b[0]] + b[1..];
      var d := Deliver(s, b[0]);
      assert d.wins[i].closing <==> s.wins[i].closing || b[0] == CloseInput(i);
      DeliverAllClosing(d, b[1..], i);
    }
  }

  /** One iteration of the main loop raises quit exactly when it was raised already, some
      window was closing when the updates ran, or the poll delivered a quit request. */
  lemma IterationQuit(s: World, script: seq<seq<Input>>, k: nat)
    requires ScriptFor(script, |s.wins|)
    ensures Iteration(s, script, k).quit <==> s.quit || AnyClosing(s.wins) || QuitInput in Batch(script, k)
  {
    var u := UpdateFrom(s, 0);
    UpdateFromQuit(s, 0);
    DeliverAllQuit(u.(trace := u.trace + [PollEvents]), Batch(script, k));
  }

  /** An iteration that leaves quit unset was not the last input-free one: a closing input
      is still ahead, or a window is now closing. */
  lemma LoopProgress(s: World, script: seq<seq<Input>>, k: nat)
    requires ScriptFor(script, |s.wins|) && WillStop(s, script, k)
    ensures var p := Iteration(s, script, k);
            !p.quit ==> k < |script| && WillStop(p, script, k + 1)
  {
    var u := UpdateFrom(s, 0);
    UpdateFromQuit(s, 0);
    var b := Batch(script, k);
    var p0 := u.(trace := u.trace + [PollEvents]);
    var p := DeliverAll(p0, b);
    assert p == Iteration(s, script, k);
    DeliverAllQuit(p0, b);
    if !p.quit {
      assert !AnyClosing(s.wins);
      var j :| k <= j < |script| && HasCloser(script[j], |s.wins|);
      if j == k {
        var e :| e in b && Closer(e, |s.wins|);
        DeliverAllClosing(p0, b, e.win);
        assert p.wins[e.win].closing;
      } else {
        assert HasCloser(script[j], |p.wins|);
      }
    }
  }
}
