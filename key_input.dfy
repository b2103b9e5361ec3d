/** Key-event translation: which GLFW key events reach a window's `key` callback, and with
    which arguments. */
module KeyInput {
  import opened Glfw

  predicate IsUpper(c: int) {
    'A' as int <= c <= 'Z' as int
  }

  /** C's `tolower` in the "C" locale, taken as the identity outside 'A'..'Z'
      (GLFW codes above 255 are outside the range `tolower` is defined on). */
  function ToLower(c: int): (r: int)
    ensures !IsUpper(r)
    ensures r != c <==> IsUpper(c)
    ensures IsUpper(c) ==> r - c == 'a' as int - 'A' as int
  {
    if IsUpper(c) then c + ('a' as int - 'A' as int) else c
  }

  /** Whether any of the modifier bits in `bits` is set in `mods`. */
  predicate Held(mods: bv32, bits: bv32) {
    (mods & bits) != 0
  }

  /** What happens to one key event: nothing, or one call of the `key` callback. */
  datatype KeyDecision = Drop | Dispatch(action: int, ctrl: bool, code: int, scancode: int)

  /** The code the callback should see, stated the other way round from the callback
      itself: Backspace and Enter become their control characters whatever the modifiers,
      any other key is lower-cased unless Shift is held. */
  function ExpectedCode(key: int, shift: bool): int {
    if key == KeyBackspace then 0x08
    else if key == KeyEnter then '\n' as int
    else if shift then key
    else ToLower(key)
  }

  /** The decision of the GLFW key callback, in its own order of tests: closing window,
      unknown key, Control chord, then lower-casing, then the missing callback, then the
      Backspace and Enter remapping. */
  function TranslateKey(closing: bool, hasKey: bool, key: int, scancode: int, action: int, mods: bv32): (r: KeyDecision)
    ensures r.Dispatch? <==> !closing && key != KeyUnknown && !Held(mods, ModControl) && hasKey
    ensures r.Dispatch? ==> r.ctrl == Held(mods, ModSuper)
    ensures r.Dispatch? ==> r.action == action && r.scancode == scancode
    ensures r.Dispatch? ==> r.code == ExpectedCode(key, Held(mods, ModShift))
  {
    if closing then Drop
    else if key == KeyUnknown then Drop
    else if Held(mods, ModControl) then Drop
    else
      var ctrl := Held(mods, ModControl | ModSuper);
      var k := if !Held(mods, ModShift) then ToLower(key) else key;
      if !hasKey then Drop
      else if k == KeyBackspace then Dispatch(action, ctrl, 0x08, scancode)
      else if k == KeyEnter then Dispatch(action, ctrl, '\n' as int, scancode)
      else Dispatch(action, ctrl, k, scancode)
  }

  /** Without Shift no upper-case letter ever reaches the callback. */
  lemma NoUpperWithoutShift(closing: bool, hasKey: bool, key: int, scancode: int, action: int, mods: bv32)
    requires !Held(mods, ModShift)
    ensures var r := TranslateKey(closing, hasKey, key, scancode, action, mods);
            r.Dispatch? ==> !IsUpper(r.code)
  {
  }
}
