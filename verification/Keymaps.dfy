// The keyboard the guardian types on: the chords that guardian.c looks up in its keymap.
module Keymaps {
  import opened Options
  import opened Lists

  // What xkb knows. level0 is the single symbol of a key, if it has exactly one; symbols and
  // text are what a key yields, without and with shift; named is the symbol of a name, or 0.
  datatype Keymap = Keymap(
    level0: nat -> Option<nat>,
    symbols: (bool, nat) -> nat,
    text: (bool, nat) -> nat,
    named: string -> nat)

  const SHIFT_L: nat := 0xffe1
  const CONTROL_L: nat := 0xffe3
  const ALT_L: nat := 0xffe9
  const SUPER_L: nat := 0xffeb
  const BACKSPACE: nat := 0xff08

  // A key to look for: by the character it types, or by its symbol.
  datatype Target = Character(cp: nat) | Symbol(sym: nat)

  predicate Yields(m: Keymap, t: Target, shifted: bool, k: nat) {
    if t.Symbol? then m.symbols(shifted, k) == t.sym else m.text(shifted, k) == t.cp
  }

  // What a search over the keys looks for: the key of a symbol, or one that yields a target.
  datatype Query = KeyOf(sym: nat) | Shown(t: Target, shifted: bool)

  predicate Hit(m: Keymap, q: Query, k: nat) {
    match q
    case KeyOf(sym) => m.level0(k) == Some(sym)
    case Shown(t, shifted) => Yields(m, t, shifted, k)
  }

  // The first key, from keycode k on, that answers q; keycodes are eight above key numbers.
  function First(m: Keymap, q: Query, k: nat): (key: nat)
    requires 9 <= k <= 256
    ensures key <= 247 && (key != 0 ==> k <= key + 8 && Hit(m, q, key + 8))
    decreases 256 - k
  {
    if k == 256 then 0 else if Hit(m, q, k) then k - 8 else First(m, q, k + 1)
  }

  function SymbolKey(m: Keymap, sym: nat): (key: nat)
    ensures key <= 247
  {
    First(m, KeyOf(sym), 9)
  }

  function Modifier(m: Keymap, name: string): (key: nat)
    ensures key <= 247
  {
    if name == "ctrl" then SymbolKey(m, CONTROL_L)
    else if name == "shift" then SymbolKey(m, SHIFT_L)
    else if name == "alt" then SymbolKey(m, ALT_L)
    else if name == "super" then SymbolKey(m, SUPER_L)
    else 0
  }

  // The first of the keys is the least: what it answers no lower keycode does.
  lemma {:induction false} FirstIsLeast(m: Keymap, q: Query, k: nat)
    requires 9 <= k <= 256
    ensures var key := First(m, q, k);
      && (key == 0 ==> forall j :: k <= j <= 255 ==> !Hit(m, q, j))
      && (key != 0 ==> k <= key + 8 <= 255 && Hit(m, q, key + 8) && forall j :: k <= j < key + 8 ==> !Hit(m, q, j))
    decreases 256 - k
  {
    if k < 256 && !Hit(m, q, k) { FirstIsLeast(m, q, k + 1); }
  }

  // A modifier is the first key whose one plain symbol is the left key of its name.
  lemma ModifierMeans(m: Keymap, name: string, sym: nat)
    requires (name == "ctrl" && sym == 0xffe3) || (name == "shift" && sym == 0xffe1) || (name == "alt" && sym == 0xffe9)
             || (name == "super" && sym == 0xffeb)
    ensures var key := Modifier(m, name);
      && (key == 0 ==> forall j :: 9 <= j <= 255 ==> m.level0(j) != Some(sym))
      && (key != 0 ==> m.level0(key + 8) == Some(sym) && forall j :: 9 <= j < key + 8 ==> m.level0(j) != Some(sym))
  {
    FirstIsLeast(m, KeyOf(sym), 9);
    assert forall j :: m.level0(j) == Some(sym) <==> Hit(m, KeyOf(sym), j);
  }

  const MAX_CHORD: nat := 16

  predicate ChordOk(c: seq<nat>) {
    && |c| <= MAX_CHORD
    && (forall k <- c :: 1 <= k <= 247)
    && NoRepeats(c)
  }

  // chord_add(): a key that is already part of the chord is not pressed twice.
  function ChordAdd(c: seq<nat>, key: nat): (r: Option<seq<nat>>)
    ensures ChordOk(c) && r.Some? ==> ChordOk(r.value)
  {
    if key == 0 || key > 247 then None
    else if key in c then Some(c)
    else if |c| == MAX_CHORD then None
    else Some(c + [key])
  }

  // character(): the unshifted key, or else shift and the shifted key.
  function Keystroke(m: Keymap, t: Target, c: seq<nat>): (r: Option<seq<nat>>)
    ensures ChordOk(c) && r.Some? ==> ChordOk(r.value)
  {
    var plain := First(m, Shown(t, false), 9);
    var shifted := First(m, Shown(t, true), 9);
    if plain != 0 then ChordAdd(c, plain)
    else if shifted == 0 then None
    else var withShift := ChordAdd(c, SymbolKey(m, SHIFT_L));
         if withShift.None? then None else ChordAdd(withShift.value, shifted)
  }

  // A key yields a character by its text, and a symbol by its symbol.
  ghost predicate Gives(m: Keymap, t: Target, shifted: bool, code: nat) {
    match t
    case Character(cp) => m.text(shifted, code) == cp
    case Symbol(sym) => m.symbols(shifted, code) == sym
  }

  // What a keystroke presses: the first key that gives the target as it is, or else the left shift
  // key and the first one that gives it shifted.
  lemma KeystrokeMeans(m: Keymap, t: Target)
    ensures var r := Keystroke(m, t, []);
      && (r.Some? ==> r.value != [] && var code := r.value[|r.value| - 1] + 8;
            var shifted := !Gives(m, t, false, code);
            && Gives(m, t, shifted, code)
            && (forall j :: 9 <= j < code ==> !Gives(m, t, shifted, j))
            && (shifted ==> r.value[0] == Modifier(m, "shift") && forall j :: 9 <= j <= 255 ==> !Gives(m, t, false, j))
            && (!shifted ==> |r.value| == 1))
      && (r.None? ==> forall j :: 9 <= j <= 255 ==> !Gives(m, t, false, j))
  {
    FirstIsLeast(m, Shown(t, false), 9);
    FirstIsLeast(m, Shown(t, true), 9);
    assert forall j :: Gives(m, t, false, j) <==> Hit(m, Shown(t, false), j);
    assert forall j :: Gives(m, t, true, j) <==> Hit(m, Shown(t, true), j);
  }

  method FindFirst(m: Keymap, q: Query) returns (key: nat)
    ensures key == First(m, q, 9)
  {
    hide Hit;
    var k := 9;
    while k <= 255
      invariant 9 <= k <= 256 && First(m, q, 9) == First(m, q, k)
    {
      if Hit(m, q, k) {
        return k - 8;
      }
      k := k + 1;
    }
    key := 0;
  }

  method FindKeystroke(m: Keymap, t: Target, c: seq<nat>) returns (r: Option<seq<nat>>)
    ensures r == Keystroke(m, t, c)
  {
    var shift := FindFirst(m, KeyOf(SHIFT_L));
    var shifted := 0;
    while shifted < 2
      invariant 0 <= shifted <= 2
      invariant shifted > 0 ==> First(m, Shown(t, false), 9) == 0
      invariant shifted > 1 ==> First(m, Shown(t, true), 9) == 0
    {
      var key := FindFirst(m, Shown(t, shifted == 1));
      if key != 0 {
        if shifted == 0 {
          return ChordAdd(c, key);
        }
        var withShift := ChordAdd(c, shift);
        if withShift.None? {
          return None;
        }
        return ChordAdd(withShift.value, key);
      }
      shifted := shifted + 1;
    }
    r := None;
  }

  function IndexOf(s: string, c: char): (i: nat)
    ensures i <= |s| && c !in s[..i] && (i < |s| ==> s[i] == c)
  {
    if s == "" || s[0] == c then 0 else 1 + IndexOf(s[1..], c)
  }

  // named_chord(): modifiers separated by plus signs, then one character or a symbol's name.
  function NamedChord(m: Keymap, name: string, c: seq<nat>): (r: Option<seq<nat>>)
    ensures ChordOk(c) && r.Some? ==> ChordOk(r.value)
    decreases |name|
  {
    var i := IndexOf(name, '+');
    if i < |name| then
      var key := Modifier(m, name[..i]);
      if key == 0 || |c| >= 4 || key in c then None else NamedChord(m, name[i + 1..], c + [key])
    else if |name| == 1 && ' ' <= name[0] <= '~' then Keystroke(m, Character(name[0] as nat), c)
    else if m.named(name) == 0 then None
    else Keystroke(m, Symbol(m.named(name)), c)
  }

  lemma {:induction false} NamedChordNotEmpty(m: Keymap, name: string, c: seq<nat>)
    ensures NamedChord(m, name, c).Some? ==> NamedChord(m, name, c).value != []
    decreases |name|
  {
    var i := IndexOf(name, '+');
    if i < |name| {
      var key := Modifier(m, name[..i]);
      if key != 0 && |c| < 4 && key !in c { NamedChordNotEmpty(m, name[i + 1..], c + [key]); }
    }
  }

  method FindModifier(m: Keymap, name: string) returns (key: nat)
    ensures key == Modifier(m, name)
  {
    if name == "ctrl" {
      key := FindFirst(m, KeyOf(CONTROL_L));
    } else if name == "shift" {
      key := FindFirst(m, KeyOf(SHIFT_L));
    } else if name == "alt" {
      key := FindFirst(m, KeyOf(ALT_L));
    } else if name == "super" {
      key := FindFirst(m, KeyOf(SUPER_L));
    } else {
      key := 0;
    }
  }

  method FindNamedChord(m: Keymap, text: string) returns (r: Option<seq<nat>>)
    ensures r == NamedChord(m, text, [])
  {
    var name, c, seen := text, [], [];
    while '+' in name
      invariant seen == c && |c| <= 4 && NamedChord(m, text, []) == NamedChord(m, name, c)
      decreases |name|
    {
      var plus := IndexOf(name, '+');
      var key := FindModifier(m, name[..plus]);
      if key == 0 || |seen| == 4 || key in seen {
        return None;
      }
      seen := seen + [key];
      var more := ChordAdd(c, key);
      if more.None? {
        return None;
      }
      c, name := more.value, name[plus + 1..];
    }
    if |name| == 1 && ' ' <= name[0] <= '~' {
      r := FindKeystroke(m, Character(name[0] as nat), c);
    } else if m.named(name) == 0 {
      r := None;
    } else {
      r := FindKeystroke(m, Symbol(m.named(name)), c);
    }
  }
}
