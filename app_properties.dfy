/** What the application layer of app.c promises, proved about the transitions of AppModel. */
module AppProperties {
  import opened Glfw
  import opened AppModel

  /** The calls made between two worlds, the second extending the first. */
  function New(s: World, r: World): seq<Call>
    requires s.trace <= r.trace
  {
    r.trace[|s.trace|..]
  }

  lemma NewSplit(s: World, m: World, r: World)
    requires s.trace <= m.trace <= r.trace
    ensures New(s, r) == New(s, m) + New(m, r)
  {
    assert New(s, r) == r.trace[|s.trace|..|m.trace|] + r.trace[|m.trace|..];
  }

  predicate HasWin(c: Call) {
    !c.PollEvents? && !c.RenderFini?
  }

  /** The windows of the calls satisfying p, in trace order. */
  function Subjects(cs: seq<Call>, p: Call -> bool): seq<nat> {
    if cs == [] then []
    else (if p(cs[0]) && HasWin(cs[0]) then [cs[0].win] else []) + Subjects(cs[1..], p)
  }

  lemma {:induction false} SubjectsAppend(a: seq<Call>, b: seq<Call>, p: Call -> bool)
    ensures Subjects(a + b, p) == Subjects(a, p) + Subjects(b, p)
    decreases |a|
  {
    if a == [] {
      assert a + b == b;
    } else {
      assert (a + b)[1..] == a[1..] + b;
      SubjectsAppend(a[1..], b, p);
    }
  }

  lemma SubjectsSingle(c: Call, p: Call -> bool)
    ensures Subjects([c], p) == if p(c) && HasWin(c) then [c.win] else []
  {
    assert [c][1..] == [];
  }

  lemma SilentAppend(a: seq<Call>, b: seq<Call>, m: nat)
    requires Silent(a, m) && Silent(b, m)
    ensures Silent(a + b, m)
  {
  }

  lemma FrameOnlyAppend(a: seq<Call>, b: seq<Call>)
    requires FrameOnly(a) && FrameOnly(b)
    ensures FrameOnly(a + b)
  {
  }

  /** The calls of one frame update are drawing calls for that window only. */
  lemma UpdateCalls(w: WinVal, i: nat, m: nat)
    ensures FrameOnly(Update(w, i).calls)
    ensures w.closing ==> Update(w, i).calls == []
    ensures i != m ==> Silent(Update(w, i).calls, m)
    ensures Subjects(Update(w, i).calls, IsSwap) == if w.closing then [] else [i]
  {
    UpdateDraws(w, i);
    UpdateSwaps(w, i);
  }

  /** A frame update swaps its own window once, unless that window is closing. */
  lemma UpdateSwaps(w: WinVal, i: nat)
    ensures Subjects(Update(w, i).calls, IsSwap) == if w.closing then [] else [i]
  {
    var cs := Update(w, i).calls;
    var swap := SwapBuffers(i);
    SubjectsSingle(swap, IsSwap);
    if w.closing {
    } else if w.desc.hasCrdraw {
      var draw, blit := CrDrawCb(i, w.userData, w.desc.size), BlitSurface(i, w.desc.size);
      assert cs == [draw] + ([blit] + [swap]);
      SubjectsSingle(draw, IsSwap);
      SubjectsSingle(blit, IsSwap);
      SubjectsAppend([blit], [swap], IsSwap);
      SubjectsAppend([draw], [blit] + [swap], IsSwap);
    } else if w.desc.hasDraw {
      var draw := DrawCb(i, w.userData, w.size);
      assert cs == [draw] + [swap];
      SubjectsSingle(draw, IsSwap);
      SubjectsAppend([draw], [swap], IsSwap);
    } else {
      assert cs == [swap];
    }
  }

  /** The calls made for one input are calls of the user's input callbacks for the
      input's window only, and none at all when that window is closing. */
  lemma DeliverCalls(s: World, e: Input, m: nat)
    requires InputFor(e, |s.wins|)
    ensures CallbackOnly(New(s, Deliver(s, e)))
    ensures FrameOnly(New(s, Deliver(s, e)))
    ensures (e.QuitInput? || e.win != m || s.wins[m].closing) ==> Silent(New(s, Deliver(s, e)), m)
    ensures m < |s.wins| && s.wins[m].closing ==> Deliver(s, e).wins[m].closing
  {
  }

  /** lo, lo + 1, ..., hi - 1. */
  function Range(lo: nat, hi: nat): seq<nat>
    decreases hi - lo
  {
    if lo >= hi then [] else [lo] + Range(lo + 1, hi)
  }

  predicate IsCreate(c: Call) { c.CreateWindow? }
  predicate IsRenderInit(c: Call) { c.RenderInit? }
  predicate IsSwap(c: Call) { c.SwapBuffers? }
  predicate IsInit(c: Call) { c.InitCb? }
  predicate IsFini(c: Call) { c.FiniCb? }
  predicate IsDestroy(c: Call) { c.DestroyWindow? }

  /** A call of window m's input or draw callbacks, or of the drawing done for it. */
  predicate Activity(c: Call, m: nat) {
    && (c.KeyCb? || c.MouseCb? || c.ScrollCb? || c.CrDrawCb? || c.BlitSurface? || c.DrawCb? || c.SwapBuffers?)
    && c.win == m
  }

  predicate Silent(cs: seq<Call>, m: nat) {
    forall c :: c in cs ==> !Activity(c, m)
  }

  /** A call the main loop can make: input callbacks, drawing and polling. */
  predicate FrameCall(c: Call) {
    c.KeyCb? || c.MouseCb? || c.ScrollCb? || c.CrDrawCb? || c.BlitSurface? || c.DrawCb?
    || c.SwapBuffers? || c.PollEvents?
  }

  predicate FrameOnly(cs: seq<Call>) {
    forall c :: c in cs ==> FrameCall(c)
  }

  /** Calls of the user's input callbacks only: `key`, `mouse` and `scroll`. */
  predicate CallbackOnly(cs: seq<Call>) {
    forall c :: c in cs ==> c.KeyCb? || c.MouseCb? || c.ScrollCb?
  }

  // ---------------------------------------------------------------- the update pass

  /** The windows from i on that are not closing, in index order. */
  function OpenFrom(wins: seq<WinVal>, i: nat): seq<nat>
    requires i <= |wins|
    decreases |wins| - i
  {
    if i == |wins| then []
    else (if wins[i].closing then [] else [i]) + OpenFrom(wins, i + 1)
  }

  /** The update pass swaps the buffers of exactly the windows that are not closing, once
      each and in index order: a window that returned false does not stop the windows
      after it from being updated. */
  lemma {:induction false} UpdateFromSwaps(s: World, i: nat)
    requires i <= |s.wins|
    ensures Subjects(New(s, UpdateFrom(s, i)), IsSwap) == OpenFrom(s.wins, i)
    decreases |s.wins| - i
  {
    if i < |s.wins| {
      var f := Update(s.wins[i], i);
      var t := World(s.wins, s.quit || !f.open, s.trace + f.calls);
      var r := UpdateFrom(s, i);
      UpdateFromSwaps(t, i + 1);
      NewSplit(s, t, r);
      assert New(s, t) == f.calls;
      SubjectsAppend(f.calls, New(t, r), IsSwap);
      UpdateCalls(s.wins[i], i, i);
    }
  }

  /** The update pass draws nothing for a window that is closing, and makes only
      drawing calls. */
  lemma {:induction false} UpdateFromSilent(s: World, i: nat, m: nat)
    requires i <= |s.wins| && m < |s.wins| && s.wins[m].closing
    ensures Silent(New(s, UpdateFrom(s, i)), m)
    decreases |s.wins| - i
  {
    if i < |s.wins| {
      var f := Update(s.wins[i], i);
      var t := World(s.wins, s.quit || !f.open, s.trace + f.calls);
      UpdateFromSilent(t, i + 1, m);
      UpdateFromStep(s, i, New(t, UpdateFrom(t, i + 1)), m);
    }
  }

  /** One step of the update pass adds the calls of one update in front of the rest. */
  lemma UpdateFromStep(s: World, i: nat, rest: seq<Call>, m: nat)
    requires i < |s.wins| && m < |s.wins| && s.wins[m].closing && Silent(rest, m)
    requires var f := Update(s.wins[i], i);
             var t := World(s.wins, s.quit || !f.open, s.trace + f.calls);
             rest == New(t, UpdateFrom(t, i + 1))
    ensures Silent(New(s, UpdateFrom(s, i)), m)
  {
    var f := Update(s.wins[i], i);
    var t := World(s.wins, s.quit || !f.open, s.trace + f.calls);
    var r := UpdateFrom(t, i + 1);
    assert UpdateFrom(s, i) == r;
    NewSplit(s, t, r);
    assert New(s, t) == f.calls;
    UpdateCalls(s.wins[i], i, m);
    SilentAppend(f.calls, rest, m);
  }

  // ---------------------------------------------------------------- polling

  /** Nothing is called for a closing window while a batch is delivered. */
  lemma {:induction false} DeliverAllSilent(s: World, b: seq<Input>, m: nat)
    requires BatchFor(b, |s.wins|) && m < |s.wins| && s.wins[m].closing
    ensures Silent(New(s, DeliverAll(s, b)), m)
    decreases |b|
  {
    if b != [] {
      var d := Deliver(s, b[0]);
      var r := DeliverAll(s, b);
      DeliverCalls(s, b[0], m);
      DeliverAllSilent(d, b[1..], m);
      NewSplit(s, d, r);
      SilentAppend(New(s, d), New(d, r), m);
    }
  }

  /** The callbacks run by a poll are the user's input callbacks only (so no drawing,
      swap, set-up or tear-down call), whatever the state of the windows. */
  lemma {:induction false} DeliverAllFrameOnly(s: World, b: seq<Input>)
    requires BatchFor(b, |s.wins|)
    ensures CallbackOnly(New(s, DeliverAll(s, b)))
    ensures FrameOnly(New(s, DeliverAll(s, b)))
    decreases |b|
  {
    if b != [] {
      var d := Deliver(s, b[0]);
      var r := DeliverAll(s, b);
      DeliverCalls(s, b[0], 0);
      DeliverAllFrameOnly(d, b[1..]);
      NewSplit(s, d, r);
      FrameOnlyAppend(New(s, d), New(d, r));
    }
  }

  /** The drag flag a window has after a batch, stated on its own: the action of the last
      button input for that window was a press, or, with no button input, as before. */
  function LastPress(held: bool, b: seq<Input>, m: nat): bool
    decreases |b|
  {
    if b == [] then held
    else LastPress(if b[0].ButtonInput? && b[0].win == m then b[0].action == Press else held, b[1..], m)
  }

  /** For a window that stays open through a batch, `in_click` tracks the last button
      input, so cursor moves are forwarded after a press and dropped after a release. */
  lemma {:induction false} DeliverAllInClick(s: World, b: seq<Input>, m: nat)
    requires BatchFor(b, |s.wins|) && m < |s.wins| && !s.wins[m].closing && CloseInput(m) !in b
    ensures DeliverAll(s, b).wins[m].inClick == LastPress(s.wins[m].inClick, b, m)
    ensures !DeliverAll(s, b).wins[m].closing
    decreases |b|
  {
    if b != [] {
      assert b[0] in b;
      var d := Deliver(s, b[0]);
      assert d.wins[m].inClick == (if b[0].ButtonInput? && b[0].win == m then b[0].action == Press else s.wins[m].inClick);
      assert CloseInput(m) !in b[1..] by { assert forall e :: e in b[1..] ==> e in b; }
      DeliverAllInClick(d, b[1..], m);
    }
  }

  // ---------------------------------------------------------------- the main loop

  /** A quit request delivered during iteration k ends the loop at the next loop test:
      every window has been updated in that iteration and the whole batch delivered. */
  lemma LoopStopsOnQuit(s: World, script: seq<seq<Input>>, k: nat)
    requires !s.quit && ScriptFor(script, |s.wins|) && WillStop(s, script, k)
    requires QuitInput in Batch(script, k)
    ensures Loop(s, script, k) == Iteration(s, script, k)
  {
    var u := UpdateFrom(s, 0);
    DeliverAllQuit(u.(trace := u.trace + [PollEvents]), Batch(script, k));
  }

  /** A window closing ends the loop after the iteration that sees it: no update is
      made for that window, and nothing is called for it, during that iteration. */
  lemma LoopStopsWhenClosing(s: World, script: seq<seq<Input>>, k: nat, m: nat)
    requires !s.quit && ScriptFor(script, |s.wins|) && m < |s.wins| && s.wins[m].closing
    ensures WillStop(s, script, k)
    ensures Loop(s, script, k) == Iteration(s, script, k)
    ensures Silent(New(s, Loop(s, script, k)), m)
  {
    var u := UpdateFrom(s, 0);
    UpdateFromQuit(s, 0);
    UpdateFromSilent(s, 0, m);
    var p0 := u.(trace := u.trace + [PollEvents]);
    var p := DeliverAll(p0, Batch(script, k));
    DeliverAllQuit(p0, Batch(script, k));
    DeliverAllSilent(p0, Batch(script, k), m);
    NewSplit(s, u, p);
    NewSplit(u, p0, p);
    assert New(u, p0) == [PollEvents];
  }

  /** A close request delivered during iteration k ends the loop at the latest at the end
      of iteration k + 1 (that iteration still updates the other windows and polls once). */
  lemma LoopStopsAfterClose(s: World, script: seq<seq<Input>>, k: nat, m: nat)
    requires !s.quit && ScriptFor(script, |s.wins|) && WillStop(s, script, k)
    requires m < |s.wins| && CloseInput(m) in Batch(script, k)
    ensures var p := Iteration(s, script, k);
            Loop(s, script, k) == p || Loop(s, script, k) == Iteration(p, script, k + 1)
  {
    var u := UpdateFrom(s, 0);
    var p0 := u.(trace := u.trace + [PollEvents]);
    var p := Iteration(s, script, k);
    assert p == DeliverAll(p0, Batch(script, k));
    DeliverAllClosing(p0, Batch(script, k), m);
    LoopNext(s, script, k);
    if !p.quit {
      LoopStopsWhenClosing(p, script, k + 1, m);
    }
  }

  /** The main loop makes only frame calls. */
  lemma {:induction false} LoopFrameOnly(s: World, script: seq<seq<Input>>, k: nat)
    requires !s.quit && ScriptFor(script, |s.wins|) && WillStop(s, script, k)
    ensures FrameOnly(New(s, Loop(s, script, k)))
    decreases |script| - k
  {
    var p := Iteration(s, script, k);
    IterationFrameOnly(s, script, k);
    if !p.quit {
      LoopProgress(s, script, k);
      var r := Loop(p, script, k + 1);
      assert Loop(s, script, k) == r;
      LoopFrameOnly(p, script, k + 1);
      NewSplit(s, p, r);
      FrameOnlyAppend(New(s, p), New(p, r));
    }
  }

  lemma IterationFrameOnly(s: World, script: seq<seq<Input>>, k: nat)
    requires ScriptFor(script, |s.wins|)
    ensures FrameOnly(New(s, Iteration(s, script, k)))
  {
    var u := UpdateFrom(s, 0);
    var p0 := u.(trace := u.trace + [PollEvents]);
    var p := DeliverAll(p0, Batch(script, k));
    assert p == Iteration(s, script, k);
    UpdateFromFrameOnly(s, 0);
    DeliverAllFrameOnly(p0, Batch(script, k));
    NewSplit(u, p0, p);
    assert New(u, p0) == [PollEvents];
    FrameOnlyAppend([PollEvents], New(p0, p));
    NewSplit(s, u, p);
    FrameOnlyAppend(New(s, u), New(u, p));
  }

  lemma {:induction false} UpdateFromFrameOnly(s: World, i: nat)
    requires i <= |s.wins|
    ensures FrameOnly(New(s, UpdateFrom(s, i)))
    decreases |s.wins| - i
  {
    if i < |s.wins| {
      var f := Update(s.wins[i], i);
      var t := World(s.wins, s.quit || !f.open, s.trace + f.calls);
      var r := UpdateFrom(s, i);
      UpdateFromFrameOnly(t, i + 1);
      NewSplit(s, t, r);
      assert New(s, t) == f.calls;
      UpdateCalls(s.wins[i], i, i);
      FrameOnlyAppend(f.calls, New(t, r));
    }
  }

  // ---------------------------------------------------------------- set-up and tear-down

  /** One step of the set-up loop puts the calls of one window_init in front of the rest. */
  lemma InitFromStep(s: World, descs: seq<Desc>, env: seq<WinEnv>)
    requires |s.wins| < |descs| == |env|
    ensures var i := |s.wins|;
            var t := InitWindow(s, descs[i], env[i]);
            New(s, InitFrom(s, descs, env)) == InitCalls(i, descs[i], i == 0) + New(t, InitFrom(t, descs, env))
  {
    var i := |s.wins|;
    var t := InitWindow(s, descs[i], env[i]);
    var c := InitCalls(i, descs[i], i == 0);
    var r := InitFrom(t, descs, env);
    InitWindowNext(s, descs, env);
    assert t.trace == s.trace + c;
    NewSplit(s, t, r);
    assert New(s, t) == c;
  }

  /** The slots from i on whose descriptor has an `init` callback, in index order. */
  function InitFromDescs(descs: seq<Desc>, i: nat): seq<nat>
    requires i <= |descs|
    decreases |descs| - i
  {
    if i == |descs| then []
    else (if descs[i].hasInit then [i] else []) + InitFromDescs(descs, i + 1)
  }

  /** Windows are created in index order, the one-shot render set-up runs once, for
      slot 0, when the set-up loop starts from an empty array, and `init` runs once for
      each window that has one, in index order. */
  lemma {:induction false} InitFromOrder(s: World, descs: seq<Desc>, env: seq<WinEnv>)
    requires |s.wins| <= |descs| == |env|
    ensures Subjects(New(s, InitFrom(s, descs, env)), IsCreate) == Range(|s.wins|, |descs|)
    ensures Subjects(New(s, InitFrom(s, descs, env)), IsRenderInit)
            == (if |s.wins| == 0 < |descs| then [0] else [])
    ensures Subjects(New(s, InitFrom(s, descs, env)), IsInit) == InitFromDescs(descs, |s.wins|)
    decreases |descs| - |s.wins|
  {
    if |s.wins| < |descs| {
      var i := |s.wins|;
      var c := InitCalls(i, descs[i], i == 0);
      var t := InitWindow(s, descs[i], env[i]);
      var rest := New(t, InitFrom(t, descs, env));
      InitFromOrder(t, descs, env);
      InitFromStep(s, descs, env);
      SubjectsAppend(c, rest, IsCreate);
      SubjectsAppend(c, rest, IsRenderInit);
      SubjectsAppend(c, rest, IsInit);
      InitCallsSubjects(i, descs[i], i == 0);
    }
  }

  lemma SubjectsOpt(cond: bool, c: Call, p: Call -> bool)
    ensures Subjects(Opt(cond, c), p) == if cond && p(c) && HasWin(c) then [c.win] else []
  {
    if cond { SubjectsSingle(c, p); }
  }

  /** The windows named by the set-up calls of window i that satisfy p, piece by piece. */
  lemma InitCallsSplit(i: nat, d: Desc, firstShot: bool, p: Call -> bool)
    ensures Subjects(InitCalls(i, d, firstShot), p)
            == Subjects([CreateCall(i, d)], p)
               + Subjects(Opt(d.pos.x != 0.0 || d.pos.y != 0.0, MoveCall(i, d)), p)
               + Subjects(Opt(firstShot, RenderInit(i)), p)
               + Subjects(Opt(d.hasInit, InitCb(i)), p)
               + Subjects(Opt(d.hasCrdraw, CreateTexture(i, d.size)), p)
  {
    var a := [CreateCall(i, d)];
    var b := Opt(d.pos.x != 0.0 || d.pos.y != 0.0, MoveCall(i, d));
    var c := Opt(firstShot, RenderInit(i));
    var e := Opt(d.hasInit, InitCb(i));
    var f := Opt(d.hasCrdraw, CreateTexture(i, d.size));
    SubjectsAppend(((a + b) + c) + e, f, p);
    SubjectsAppend((a + b) + c, e, p);
    SubjectsAppend(a + b, c, p);
    SubjectsAppend(a, b, p);
  }

  lemma InitCallsSubjects(i: nat, d: Desc, firstShot: bool)
    ensures Subjects(InitCalls(i, d, firstShot), IsCreate) == [i]
    ensures Subjects(InitCalls(i, d, firstShot), IsRenderInit) == if firstShot then [i] else []
    ensures Subjects(InitCalls(i, d, firstShot), IsInit) == if d.hasInit then [i] else []
    ensures Subjects(InitCalls(i, d, firstShot), IsFini) == []
    ensures Subjects(InitCalls(i, d, firstShot), IsDestroy) == []
  {
    var cs := InitCalls(i, d, firstShot);
    assert Subjects(cs, IsCreate) == [i] by {
      InitCallsFor(i, d, firstShot, IsCreate);
    }
    assert Subjects(cs, IsRenderInit) == if firstShot then [i] else [] by {
      InitCallsFor(i, d, firstShot, IsRenderInit);
    }
    assert Subjects(cs, IsInit) == if d.hasInit then [i] else [] by {
      InitCallsFor(i, d, firstShot, IsInit);
    }
    assert Subjects(cs, IsFini) == [] by {
      InitCallsFor(i, d, firstShot, IsFini);
    }
    assert Subjects(cs, IsDestroy) == [] by {
      InitCallsFor(i, d, firstShot, IsDestroy);
    }
  }

  lemma InitCallsFor(i: nat, d: Desc, firstShot: bool, p: Call -> bool)
    requires !p(MoveCall(i, d)) && !p(CreateTexture(i, d.size))
    ensures Subjects(InitCalls(i, d, firstShot), p)
            == (if p(CreateCall(i, d)) then [i] else []) + (if firstShot && p(RenderInit(i)) then [i] else [])
               + (if d.hasInit && p(InitCb(i)) then [i] else [])
  {
    var moved := d.pos.x != 0.0 || d.pos.y != 0.0;
    var c := CreateCall(i, d);
    var a := Subjects([c], p);
    var b := Subjects(Opt(moved, MoveCall(i, d)), p);
    var r := Subjects(Opt(firstShot, RenderInit(i)), p);
    var e := Subjects(Opt(d.hasInit, InitCb(i)), p);
    var f := Subjects(Opt(d.hasCrdraw, CreateTexture(i, d.size)), p);
    assert Subjects(InitCalls(i, d, firstShot), p) == a + b + r + e + f by {
      InitCallsSplit(i, d, firstShot, p);
    }
    assert a == if p(c) then [i] else [] by {
      SubjectsSingle(c, p);
    }
    assert b == [] by {
      SubjectsOpt(moved, MoveCall(i, d), p);
    }
    assert r == if firstShot && p(RenderInit(i)) then [i] else [] by {
      SubjectsOpt(firstShot, RenderInit(i), p);
    }
    assert e == if d.hasInit && p(InitCb(i)) then [i] else [] by {
      SubjectsOpt(d.hasInit, InitCb(i), p);
    }
    assert f == [] by {
      SubjectsOpt(d.hasCrdraw, CreateTexture(i, d.size), p);
    }
    assert a + b + r + e + f == a + r + e;
  }

  /** Whether set-up is entered with quit raised makes no difference but to the flag. */
  lemma {:induction false} InitFromIgnoresQuit(s: World, descs: seq<Desc>, env: seq<WinEnv>, q: bool)
    requires |s.wins| <= |descs| == |env|
    ensures InitFrom(s.(quit := q), descs, env) == InitFrom(s, descs, env).(quit := q)
    decreases |descs| - |s.wins|
  {
    if |s.wins| < |descs| {
      InitFromIgnoresQuit(InitWindow(s, descs[|s.wins|], env[|s.wins|]), descs, env, q);
    }
  }

  /** app_close() before app_run is discarded: app_run resets the flag before its loop. */
  lemma RunIgnoresEarlyClose(t0: seq<Call>, descs: seq<Desc>, env: seq<WinEnv>, script: seq<seq<Input>>)
    requires RunPre(descs, env, script)
    ensures Run(t0, true, descs, env, script) == Run(t0, false, descs, env, script)
  {
    InitFromIgnoresQuit(World([], false, t0), descs, env, true);
  }

  /** The windows from i on that have a `fini` callback, in index order. */
  function FiniFromWins(wins: seq<WinVal>, i: nat): seq<nat>
    requires i <= |wins|
    decreases |wins| - i
  {
    if i == |wins| then []
    else (if wins[i].desc.hasFini then [i] else []) + FiniFromWins(wins, i + 1)
  }

  /** One step of the tear-down loop puts the calls of one window_fini in front of the rest. */
  lemma FiniFromStep(s: World, i: nat)
    requires i < |s.wins|
    ensures var t := s.(trace := s.trace + FiniCalls(s.wins[i], i));
            New(s, FiniFrom(s, i)) == FiniCalls(s.wins[i], i) + New(t, FiniFrom(t, i + 1))
  {
    var t := s.(trace := s.trace + FiniCalls(s.wins[i], i));
    var r := FiniFrom(t, i + 1);
    assert FiniFrom(s, i) == r;
    NewSplit(s, t, r);
    assert New(s, t) == FiniCalls(s.wins[i], i);
  }

  /** window_fini destroys its own window once, and calls `fini`, with its own user data,
      only when there is one. */
  lemma FiniCallsSubjects(w: WinVal, i: nat)
    ensures Subjects(FiniCalls(w, i), IsDestroy) == [i]
    ensures Subjects(FiniCalls(w, i), IsFini) == if w.desc.hasFini then [i] else []
    ensures forall c :: c in FiniCalls(w, i) && c.FiniCb? ==> c == FiniCb(i, w.userData)
  {
    var f := Opt(w.desc.hasFini, FiniCb(i, w.userData));
    assert FiniCalls(w, i) == f + [DestroyWindow(i)];
    SubjectsAppend(f, [DestroyWindow(i)], IsDestroy);
    SubjectsAppend(f, [DestroyWindow(i)], IsFini);
    SubjectsOpt(w.desc.hasFini, FiniCb(i, w.userData), IsDestroy);
    assert Subjects(f, IsDestroy) == [];
    SubjectsOpt(w.desc.hasFini, FiniCb(i, w.userData), IsFini);
    SubjectsSingle(DestroyWindow(i), IsDestroy);
    SubjectsSingle(DestroyWindow(i), IsFini);
    assert Subjects([DestroyWindow(i)], IsFini) == [];
  }

  /** Tear-down destroys every window from i on once, in index order, and calls `fini`
      once, in index order, for those that have one. */
  lemma {:induction false} FiniFromOrder(s: World, i: nat)
    requires i <= |s.wins|
    ensures Subjects(New(s, FiniFrom(s, i)), IsDestroy) == Range(i, |s.wins|)
    ensures Subjects(New(s, FiniFrom(s, i)), IsFini) == FiniFromWins(s.wins, i)
    decreases |s.wins| - i
  {
    if i < |s.wins| {
      var c := FiniCalls(s.wins[i], i);
      var t := s.(trace := s.trace + c);
      var rest := New(t, FiniFrom(t, i + 1));
      FiniFromOrder(t, i + 1);
      FiniFromStep(s, i);
      SubjectsAppend(c, rest, IsDestroy);
      SubjectsAppend(c, rest, IsFini);
      FiniCallsSubjects(s.wins[i], i);
    }
  }

  /** Each `fini` called during tear-down receives the user data of its own window. */
  lemma {:induction false} FiniFromUserData(s: World, i: nat)
    requires i <= |s.wins|
    ensures forall c :: c in New(s, FiniFrom(s, i)) && c.FiniCb? ==> c.win < |s.wins| && c.userData == s.wins[c.win].userData
    decreases |s.wins| - i
  {
    if i < |s.wins| {
      var c := FiniCalls(s.wins[i], i);
      var t := s.(trace := s.trace + c);
      FiniFromUserData(t, i + 1);
      FiniFromStep(s, i);
      FiniCallsSubjects(s.wins[i], i);
    }
  }

  lemma {:induction false} FrameOnlyNoTeardown(cs: seq<Call>)
    requires FrameOnly(cs)
    ensures Subjects(cs, IsDestroy) == [] && Subjects(cs, IsFini) == []
    decreases |cs|
  {
    if cs != [] {
      assert cs[0] in cs;
      assert forall c :: c in cs[1..] ==> c in cs;
      FrameOnlyNoTeardown(cs[1..]);
    }
  }

  lemma {:induction false} InitFromNoTeardown(s: World, descs: seq<Desc>, env: seq<WinEnv>)
    requires |s.wins| <= |descs| == |env|
    ensures Subjects(New(s, InitFrom(s, descs, env)), IsDestroy) == []
    ensures Subjects(New(s, InitFrom(s, descs, env)), IsFini) == []
    decreases |descs| - |s.wins|
  {
    if |s.wins| < |descs| {
      var i := |s.wins|;
      var c := InitCalls(i, descs[i], i == 0);
      var t := InitWindow(s, descs[i], env[i]);
      var rest := New(t, InitFrom(t, descs, env));
      InitFromNoTeardown(t, descs, env);
      InitFromStep(s, descs, env);
      SubjectsAppend(c, rest, IsDestroy);
      SubjectsAppend(c, rest, IsFini);
      InitCallsSubjects(i, descs[i], i == 0);
    }
  }

  lemma Subjects4(a: seq<Call>, b: seq<Call>, c: seq<Call>, d: seq<Call>, p: Call -> bool)
    ensures Subjects(a + (b + (c + d)), p) == Subjects(a, p) + Subjects(b, p) + Subjects(c, p) + Subjects(d, p)
  {
    SubjectsAppend(a, b + (c + d), p);
    SubjectsAppend(b, c + d, p);
    SubjectsAppend(c, d, p);
  }

  /** The calls of a run: set-up, main loop, renderer shutdown, tear-down. */
  lemma RunSplit(t0: seq<Call>, q0: bool, descs: seq<Desc>, env: seq<WinEnv>, script: seq<seq<Input>>)
    requires RunPre(descs, env, script)
    ensures var e := World([], q0, t0);
            var s0 := InitFrom(e, descs, env);
            var l0 := s0.(quit := false);
            var s1 := Loop(l0, script, 0);
            var s2 := s1.(trace := s1.trace + [RenderFini]);
            var r := FiniFrom(s2, 0);
            r == Run(t0, q0, descs, env, script)
            && r.trace[|t0|..] == New(e, s0) + (New(l0, s1) + ([RenderFini] + New(s2, r)))
  {
    var e := World([], q0, t0);
    var s0 := InitFrom(e, descs, env);
    var l0 := s0.(quit := false);
    var s1 := Loop(l0, script, 0);
    var s2 := s1.(trace := s1.trace + [RenderFini]);
    var r := FiniFrom(s2, 0);
    NewSplit(e, s0, r);
    NewSplit(l0, s1, r);
    NewSplit(s1, s2, r);
    assert New(s1, s2) == [RenderFini];
  }

  // ---------------------------------------------------------------- what a run keeps

  /** `b` holds the same windows as `a`: same count, and each keeps its descriptor and
      user data. */
  predicate KeepsWins(a: seq<WinVal>, b: seq<WinVal>) {
    |a| == |b| && forall j :: 0 <= j < |a| ==> b[j].desc == a[j].desc && b[j].userData == a[j].userData
  }

  /** No callback run during a poll changes a window's descriptor or user data. */
  lemma {:induction false} DeliverAllKeeps(s: World, b: seq<Input>)
    requires BatchFor(b, |s.wins|)
    ensures KeepsWins(s.wins, DeliverAll(s, b).wins)
    decreases |b|
  {
    if b != [] {
      assert b[0] in b;
      assert forall e :: e in b[1..] ==> e in b;
      var d := Deliver(s, b[0]);
      forall j | 0 <= j < |s.wins|
        ensures d.wins[j].desc == s.wins[j].desc && d.wins[j].userData == s.wins[j].userData
      {
        DeliverOthers(s, b[0], j);
      }
      DeliverAllKeeps(d, b[1..]);
    }
  }

  /** The main loop never changes a window's descriptor or user data. */
  lemma {:induction false} LoopKeeps(s: World, script: seq<seq<Input>>, k: nat)
    requires !s.quit && ScriptFor(script, |s.wins|) && WillStop(s, script, k)
    ensures KeepsWins(s.wins, Loop(s, script, k).wins)
    decreases |script| - k
  {
    LoopNext(s, script, k);
    var u := UpdateFrom(s, 0);
    DeliverAllKeeps(u.(trace := u.trace + [PollEvents]), Batch(script, k));
    var p := Iteration(s, script, k);
    assert KeepsWins(s.wins, p.wins);
    if !p.quit {
      LoopKeeps(p, script, k + 1);
    }
  }

  /** At the end of app_run window j still has descriptor j, and the user data `init`
      returned for it (null when it has no `init`). */
  lemma RunWins(t0: seq<Call>, q0: bool, descs: seq<Desc>, env: seq<WinEnv>, script: seq<seq<Input>>)
    requires RunPre(descs, env, script)
    ensures var r := Run(t0, q0, descs, env, script);
            forall j :: 0 <= j < |descs| ==>
              r.wins[j].desc == descs[j] && r.wins[j].userData == (if descs[j].hasInit then env[j].userData else 0)
  {
    var e := World([], q0, t0);
    var s0 := InitFrom(e, descs, env);
    InitFromWins(e, descs, env);
    var l0 := s0.(quit := false);
    assert WillStop(l0, script, 0);
    LoopKeeps(l0, script, 0);
    RunSplit(t0, q0, descs, env, script);
  }

  /** The slots from i on whose descriptor has a `fini` callback, in index order. */
  function FiniFromDescs(descs: seq<Desc>, i: nat): seq<nat>
    requires i <= |descs|
    decreases |descs| - i
  {
    if i == |descs| then []
    else (if descs[i].hasFini then [i] else []) + FiniFromDescs(descs, i + 1)
  }

  lemma {:induction false} FiniFromWinsDescs(wins: seq<WinVal>, descs: seq<Desc>, i: nat)
    requires |wins| == |descs| && i <= |descs|
    requires forall j :: 0 <= j < |descs| ==> wins[j].desc == descs[j]
    ensures FiniFromWins(wins, i) == FiniFromDescs(descs, i)
    decreases |descs| - i
  {
    if i < |descs| {
      FiniFromWinsDescs(wins, descs, i + 1);
    }
  }

  /** Over a whole run, each window is destroyed exactly once and in index order, and
      `fini` runs exactly once per configured window that has one, in index order: nothing
      before the tear-down destroys or finalises a window. */
  lemma RunTeardown(t0: seq<Call>, q0: bool, descs: seq<Desc>, env: seq<WinEnv>, script: seq<seq<Input>>)
    requires RunPre(descs, env, script)
    ensures var r := Run(t0, q0, descs, env, script);
            Subjects(r.trace[|t0|..], IsDestroy) == Range(0, |descs|)
            && Subjects(r.trace[|t0|..], IsFini) == FiniFromDescs(descs, 0)
  {
    var e := World([], q0, t0);
    var s0 := InitFrom(e, descs, env);
    var l0 := s0.(quit := false);
    var s1 := Loop(l0, script, 0);
    var s2 := s1.(trace := s1.trace + [RenderFini]);
    var r := FiniFrom(s2, 0);
    RunSplit(t0, q0, descs, env, script);
    InitFromNoTeardown(e, descs, env);
    LoopFrameOnly(l0, script, 0);
    FrameOnlyNoTeardown(New(l0, s1));
    FiniFromOrder(s2, 0);
    SubjectsSingle(RenderFini, IsDestroy);
    SubjectsSingle(RenderFini, IsFini);
    Subjects4(New(e, s0), New(l0, s1), [RenderFini], New(s2, r), IsDestroy);
    Subjects4(New(e, s0), New(l0, s1), [RenderFini], New(s2, r), IsFini);
    RunWins(t0, q0, descs, env, script);
    FiniFromWinsDescs(r.wins, descs, 0);
  }

  /** Tear-down calls `fini` and destroys windows, and calls nothing else. */
  lemma {:induction false} FiniFromTeardownOnly(s: World, i: nat)
    requires i <= |s.wins|
    ensures forall c :: c in New(s, FiniFrom(s, i)) ==> c.FiniCb? || c.DestroyWindow?
    decreases |s.wins| - i
  {
    if i < |s.wins| {
      var c := FiniCalls(s.wins[i], i);
      var t := s.(trace := s.trace + c);
      var rest := New(t, FiniFrom(t, i + 1));
      FiniFromTeardownOnly(t, i + 1);
      FiniFromStep(s, i);
      assert forall x :: x in c ==> x.FiniCb? || x.DestroyWindow?;
      assert forall x :: x in c + rest ==> x in c || x in rest;
    }
  }

  /** Calls none of which satisfies p name no window through p. */
  lemma {:induction false} SubjectsNoneOf(cs: seq<Call>, p: Call -> bool)
    requires forall c :: c in cs ==> !p(c)
    ensures Subjects(cs, p) == []
    decreases |cs|
  {
    if cs != [] {
      assert cs[0] in cs;
      assert forall c :: c in cs[1..] ==> c in cs;
      SubjectsNoneOf(cs[1..], p);
    }
  }

  /** A call only window_init makes. */
  predicate SetupCall(c: Call) {
    c.CreateWindow? || c.RenderInit? || c.InitCb?
  }

  /** The set-up calls of a kind p in a whole run are those of the set-up loop: the
      main loop, render_fini and the tear-down make none. */
  lemma RunSetupOnly(t0: seq<Call>, q0: bool, descs: seq<Desc>, env: seq<WinEnv>, script: seq<seq<Input>>,
                     p: Call -> bool)
    requires RunPre(descs, env, script)
    requires forall c :: p(c) ==> SetupCall(c)
    ensures var e := World([], q0, t0);
            Subjects(Run(t0, q0, descs, env, script).trace[|t0|..], p)
            == Subjects(New(e, InitFrom(e, descs, env)), p)
  {
    var e := World([], q0, t0);
    var s0 := InitFrom(e, descs, env);
    var l0 := s0.(quit := false);
    var s1 := Loop(l0, script, 0);
    var s2 := s1.(trace := s1.trace + [RenderFini]);
    var r := FiniFrom(s2, 0);
    RunSplit(t0, q0, descs, env, script);
    LoopFrameOnly(l0, script, 0);
    FiniFromTeardownOnly(s2, 0);
    SetupOnlyInHead(New(e, s0), New(l0, s1), New(s2, r), p);
  }

  /** In set-up calls, then frame calls, then render_fini, then the tear-down calls, the
      set-up calls of a kind p are all in the first part. */
  lemma SetupOnlyInHead(a: seq<Call>, b: seq<Call>, d: seq<Call>, p: Call -> bool)
    requires FrameOnly(b) && forall c :: c in d ==> c.FiniCb? || c.DestroyWindow?
    requires forall c :: p(c) ==> SetupCall(c)
    ensures Subjects(a + (b + ([RenderFini] + d)), p) == Subjects(a, p)
  {
    SubjectsNoneOf(b, p);
    SubjectsNoneOf([RenderFini], p);
    SubjectsNoneOf(d, p);
    Subjects4(a, b, [RenderFini], d, p);
  }

  /** Over a whole run, windows are created once each in index order, the one-shot
      render set-up runs exactly once, for window 0 (when there is a window), and `init`
      runs exactly once per configured window that has one, in index order: neither the
      main loop nor the tear-down creates or initialises anything. */
  lemma RunSetup(t0: seq<Call>, q0: bool, descs: seq<Desc>, env: seq<WinEnv>, script: seq<seq<Input>>)
    requires RunPre(descs, env, script)
    ensures var r := Run(t0, q0, descs, env, script);
            && Subjects(r.trace[|t0|..], IsCreate) == Range(0, |descs|)
            && Subjects(r.trace[|t0|..], IsRenderInit) == (if |descs| > 0 then [0] else [])
            && Subjects(r.trace[|t0|..], IsInit) == InitFromDescs(descs, 0)
  {
    var e := World([], q0, t0);
    var setup := New(e, InitFrom(e, descs, env));
    var all := Run(t0, q0, descs, env, script).trace[|t0|..];
    InitFromOrder(e, descs, env);
    assert Subjects(all, IsCreate) == Subjects(setup, IsCreate) by {
      RunSetupOnly(t0, q0, descs, env, script, IsCreate);
    }
    assert Subjects(all, IsRenderInit) == Subjects(setup, IsRenderInit) by {
      RunSetupOnly(t0, q0, descs, env, script, IsRenderInit);
    }
    assert Subjects(all, IsInit) == Subjects(setup, IsInit) by {
      RunSetupOnly(t0, q0, descs, env, script, IsInit);
    }
  }

  /** A list of calls none of which satisfies p names no window through p. */
  lemma {:induction false} SubjectsNone(cs: seq<Call>, p: Call -> bool)
    requires Subjects(cs, p) == []
    ensures forall c :: c in cs && p(c) ==> !HasWin(c)
    decreases |cs|
  {
    if cs != [] {
      SubjectsNone(cs[1..], p);
      assert forall c :: c in cs ==> c == cs[0] || c in cs[1..];
    }
  }

  /** Over a whole run, every `fini` call receives exactly what `init` returned for its
      window at set-up (null when the window has no `init`). */
  lemma RunFiniUserData(t0: seq<Call>, q0: bool, descs: seq<Desc>, env: seq<WinEnv>, script: seq<seq<Input>>)
    requires RunPre(descs, env, script)
    ensures var r := Run(t0, q0, descs, env, script);
            forall c :: c in r.trace[|t0|..] && c.FiniCb? ==>
              c.win < |descs| && c.userData == (if descs[c.win].hasInit then env[c.win].userData else 0)
  {
    var e := World([], q0, t0);
    var s0 := InitFrom(e, descs, env);
    var l0 := s0.(quit := false);
    var s1 := Loop(l0, script, 0);
    var s2 := s1.(trace := s1.trace + [RenderFini]);
    var r := FiniFrom(s2, 0);
    RunSplit(t0, q0, descs, env, script);
    InitFromNoTeardown(e, descs, env);
    LoopFrameOnly(l0, script, 0);
    FiniOnlyInTail(New(e, s0), New(l0, s1), New(s2, r));
    FiniFromUserData(s2, 0);
    RunWins(t0, q0, descs, env, script);
  }

  /** In set-up calls that finalise nothing, then frame calls, then render_fini, then the
      tear-down calls, every `fini` call belongs to the tear-down. */
  lemma FiniOnlyInTail(a: seq<Call>, b: seq<Call>, d: seq<Call>)
    requires Subjects(a, IsFini) == [] && FrameOnly(b)
    ensures forall c :: c in a + (b + ([RenderFini] + d)) && c.FiniCb? ==> c in d
  {
    SubjectsNone(a, IsFini);
  }
}
