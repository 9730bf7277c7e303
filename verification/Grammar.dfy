// The action lines of guardian.c: words separated by single spaces, read from left to right.
module Grammar {
  import opened Options
  import opened Words
  import opened Decimals
  import opened Lists
  import opened Keymaps
  import opened Gestures
  import opened Utf8

  // What is left of a line; none once its last word is taken.
  type Rest = Option<string>

  datatype Parsed<+T> = Fail | Got(value: T, rest: Rest)

  // The output the guardian points at, its keymap, and how strtod reads a word: the finite
  // number it stands for as a whole, if it is one.
  datatype Screen = Screen(keymap: Keymap, number: string -> Option<real>, width: nat, height: nat)

  // token()
  function Token(rest: Rest): Parsed<string> {
    if rest.None? || rest.value == "" then Fail
    else
      var i := IndexOf(rest.value, ' ');
      if i == 0 then Fail
      else Got(rest.value[..i], if i < |rest.value| then Some(rest.value[i + 1..]) else None)
  }

  // integer(): a number between lo and hi, in decimal digits and nothing else.
  function Integer(rest: Rest, lo: nat, hi: nat): Parsed<nat> {
    match Token(rest)
    case Fail => Fail
    case Got(word, rest) => if Digital(word) && lo <= Decimal(word) <= hi then Got(Decimal(word), rest) else Fail
  }

  // point(): on the output.
  function PointAt(screen: Screen, rest: Rest): Parsed<Point> {
    match Token(rest)
    case Fail => Fail
    case Got(x, rest) =>
      match Token(rest)
      case Fail => Fail
      case Got(y, rest) =>
        var px, py := screen.number(x), screen.number(y);
        if px.Some? && py.Some? && 0.0 <= px.value < screen.width as real && 0.0 <= py.value < screen.height as real
        then Got(Point(px.value, py.value), rest) else Fail
  }

  // The three lists of a line, read onto what was read before.
  function Points(screen: Screen, rest: Rest, n: nat, done: seq<Point>): Parsed<seq<Point>>
    decreases n
  {
    if n == 0 then Got(done, rest)
    else match PointAt(screen, rest)
      case Fail => Fail
      case Got(p, rest) => Points(screen, rest, n - 1, done + [p])
  }

  function ModifierNames(m: Keymap, rest: Rest, n: nat, done: seq<nat>): Parsed<seq<nat>>
    decreases n
  {
    if n == 0 then Got(done, rest)
    else match Token(rest)
      case Fail => Fail
      case Got(name, rest) =>
        var key := Modifier(m, name);
        if key == 0 || key in done then Fail else ModifierNames(m, rest, n - 1, done + [key])
  }

  function Modifiers(m: Keymap, rest: Rest): Parsed<seq<nat>> {
    match Integer(rest, 0, 4)
    case Fail => Fail
    case Got(n, rest) => ModifierNames(m, rest, n, [])
  }

  function Codes(rest: Rest, n: nat, done: seq<nat>): Parsed<seq<nat>>
    decreases n
  {
    if n == 0 then Got(done, rest)
    else match Integer(rest, 1, 247)
      case Fail => Fail
      case Got(k, rest) => if k in done then Fail else Codes(rest, n - 1, done + [k])
  }

  // What a pointer verb says before its first point.
  datatype Header = Header(button: nat, count: nat, ms: nat, mods: seq<nat>)

  function HeaderOf(m: Keymap, kind: char, mods: seq<nat>, rest: Rest): Parsed<Header> {
    if kind == 'M' then Got(Header(0, 1, 0, mods), rest)
    else match Integer(rest, 272, 279)
      case Fail => Fail
      case Got(button, rest) =>
        if kind == 'D' || kind == 'L' then
          match Integer(rest, 2, 256)
          case Fail => Fail
          case Got(count, rest) =>
            if kind == 'D' then Got(Header(button, count, 0, mods), rest)
            else match Integer(rest, 0, 1000)
              case Fail => Fail
              case Got(ms, rest) => Got(Header(button, count, ms, mods), rest)
        else if kind == 'V' then
          match Integer(rest, 1, 3)
          case Fail => Fail
          case Got(count, rest) =>
            match Modifiers(m, rest)
            case Fail => Fail
            case Got(named, rest) => Got(Header(button, count, 0, named), rest)
        else Got(Header(button, if kind == 'Q' then 2 else 1, 0, mods), rest)
  }

  // What the button does between press and release.
  function Stroke(screen: Screen, kind: char, h: Header, p: Point, rest: Rest): Parsed<Gesture> {
    if kind == 'D' || kind == 'L' then
      if h.count == 0 then Fail
      else match Points(screen, rest, h.count - 1, [])
        case Fail => Fail
        case Got(path, rest) => Got(Drag(h.mods, h.button, p, path, h.ms), rest)
    else Got(Clicks(h.mods, h.button, p, h.count), rest)
  }

  // M move, P press, Q double click, D drag, L timed drag, V clicks with modifiers.
  function Pointer(screen: Screen, kind: char, mods: seq<nat>, rest: Rest): Parsed<Gesture> {
    match HeaderOf(screen.keymap, kind, mods, rest)
    case Fail => Fail
    case Got(h, rest) =>
      match PointAt(screen, rest)
      case Fail => Fail
      case Got(p, rest) => if kind == 'M' then Got(MoveTo(p), rest) else Stroke(screen, kind, h, p, rest)
  }

  function Direction(word: string): Option<(nat, int)> {
    if word == "up" then Some((0, -1))
    else if word == "down" then Some((0, 1))
    else if word == "left" then Some((1, -1))
    else if word == "right" then Some((1, 1))
    else None
  }

  function WheelOf(screen: Screen, mods: seq<nat>, rest: Rest): Parsed<Gesture> {
    match Token(rest)
    case Fail => Fail
    case Got(direction, rest) =>
      match Integer(rest, 1, 20)
      case Fail => Fail
      case Got(count, rest) =>
        match PointAt(screen, rest)
        case Fail => Fail
        case Got(p, rest) =>
          match Direction(direction)
          case None => Fail
          case Some((axis, sign)) => Got(Wheel(mods, axis, sign, count, p), rest)
  }

  function ChordOf(m: Keymap, kind: char, rest: Rest): Parsed<Gesture> {
    if kind == 'K' then
      match Integer(rest, 1, 16)
      case Fail => Fail
      case Got(count, rest) =>
        match Codes(rest, count, [])
        case Fail => Fail
        case Got(keys, rest) => Got(Chord(keys), rest)
    else
      match Token(rest)
      case Fail => Fail
      case Got(name, rest) =>
        if |name| <= 128 && NamedChord(m, name, []).Some? then Got(Chord(NamedChord(m, name, []).value), rest) else Fail
  }

  // ---- Text ----

  function HexValue(c: char): Option<nat> {
    if '0' <= c <= '9' then Some(c as nat - '0' as nat)
    else if 'a' <= c <= 'f' then Some(c as nat - 'a' as nat + 10)
    else if 'A' <= c <= 'F' then Some(c as nat - 'A' as nat + 10)
    else None
  }

  // The digits of base sixteen, in either case.
  lemma HexMeans(n: nat)
    requires n < 16
    ensures HexValue("0123456789abcdef"[n]) == HexValue("0123456789ABCDEF"[n]) == Some(n)
  {}

  predicate HexDigits(text: string) { forall i :: 0 <= i < |text| ==> HexValue(text[i]).Some? }

  function HexAt(text: string, i: nat): byte
    requires HexDigits(text) && 2 * i + 1 < |text|
  {
    assert HexValue(text[2 * i]).Some? && HexValue(text[2 * i + 1]).Some?;
    HexValue(text[2 * i]).value * 16 + HexValue(text[2 * i + 1]).value
  }

  function HexBytes(text: string): seq<byte>
    requires HexDigits(text)
  {
    seq(|text| / 2, i requires 0 <= i < |text| / 2 => HexAt(text, i))
  }

  const MAX_TEXT: nat := 2048

  // The text is the UTF-8 of these printable characters, in hexadecimal.
  ghost predicate Spells(text: string, cps: seq<nat>) {
    && 0 < |text| <= 4096 && |text| % 2 == 0 && HexDigits(text)
    && |cps| <= 512 && AllPrintable(cps) && HexBytes(text) == EncodeAll(cps)
  }

  lemma OneReading(text: string, a: seq<nat>, b: seq<nat>)
    requires Spells(text, a) && Spells(text, b)
    ensures a == b && a != []
  {
    EncodeAllInjective(a, b);
    assert |HexBytes(text)| > 0;
  }

  ghost function TextOf(m: Keymap, text: string): (r: Option<seq<nat>>)
    ensures r.Some? ==> Spells(text, r.value) && Typable(m, r.value) && r.value != []
  {
    if cps :| Spells(text, cps) && Typable(m, cps) then OneReading(text, cps, cps); Some(cps) else None
  }

  lemma TextOfIs(m: Keymap, text: string, cps: seq<nat>)
    requires Spells(text, cps) && Typable(m, cps)
    ensures TextOf(m, text) == Some(cps)
  {
    assert TextOf(m, text).Some?;
    OneReading(text, TextOf(m, text).value, cps);
  }

  const SELECT_ALL: string := "ctrl+a"

  ghost function FillOf(m: Keymap, text: string): Option<Fill> {
    if text == "-" then
      var keys := Keystroke(m, Symbol(BACKSPACE), []);
      if keys.None? then None else Some(Erasing(keys.value))
    else
      var cps := TextOf(m, text);
      if cps.None? then None else Some(Typing(cps.value))
  }

  ghost function ReplaceOf(screen: Screen, rest: Rest): Parsed<Gesture> {
    match PointAt(screen, rest)
    case Fail => Fail
    case Got(p, rest) =>
      match Token(rest)
      case Fail => Fail
      case Got(text, rest) =>
        var select, fill := NamedChord(screen.keymap, SELECT_ALL, []), FillOf(screen.keymap, text);
        if select.Some? && fill.Some? then Got(Replace(p, select.value, fill.value), rest) else Fail
  }

  ghost function TypeOf(m: Keymap, rest: Rest): Parsed<Gesture> {
    match Token(rest)
    case Fail => Fail
    case Got(text, rest) =>
      var cps := TextOf(m, text);
      if cps.Some? then Got(Type(cps.value), rest) else Fail
  }

  // ---- The whole line ----

  predicate PointerVerb(kind: char) { kind in "MPQDLV" }

  ghost function GestureOf(screen: Screen, kind: char, mods: seq<nat>, rest: Rest): Parsed<Gesture> {
    if PointerVerb(kind) then Pointer(screen, kind, mods, rest)
    else if kind == 'W' then WheelOf(screen, mods, rest)
    else if kind == 'K' || kind == 'J' then ChordOf(screen.keymap, kind, rest)
    else if kind == 'T' then TypeOf(screen.keymap, rest)
    else if kind == 'E' then ReplaceOf(screen, rest)
    else Fail
  }

  // Y and Z are W and L with modifiers in front.
  ghost function Verb(screen: Screen, kind: char, rest: Rest): Parsed<Gesture> {
    if kind == 'Y' || kind == 'Z' then
      match Modifiers(screen.keymap, rest)
      case Fail => Fail
      case Got(mods, rest) => GestureOf(screen, if kind == 'Y' then 'W' else 'L', mods, rest)
    else GestureOf(screen, kind, [], rest)
  }

  // The gesture a line stands for, if it is one and nothing follows it.
  ghost function Meaning(screen: Screen, line: string): Option<Gesture> {
    match Token(Some(line))
    case Fail => None
    case Got(verb, rest) =>
      if |verb| != 1 then None
      else match Verb(screen, verb[0], rest)
        case Fail => None
        case Got(g, rest) => if rest.None? then Some(g) else None
  }

  // ---- Everything the grammar yields can be performed ----

  lemma {:induction false} PointsCount(screen: Screen, rest: Rest, n: nat, done: seq<Point>)
    ensures var r := Points(screen, rest, n, done); r.Got? ==> |r.value| == |done| + n
    decreases n
  {
    if n > 0 {
      var p := PointAt(screen, rest);
      if p.Got? { PointsCount(screen, p.rest, n - 1, done + [p.value]); }
    }
  }

  predicate Fresh(keys: seq<nat>) {
    (forall k <- keys :: 1 <= k <= 247) && NoRepeats(keys)
  }

  lemma FreshSnoc(keys: seq<nat>, k: nat)
    requires Fresh(keys) && 1 <= k <= 247 && k !in keys
    ensures Fresh(keys + [k])
  {}

  lemma {:induction false} ModifierNamesFresh(m: Keymap, rest: Rest, n: nat, done: seq<nat>)
    requires Fresh(done)
    ensures var r := ModifierNames(m, rest, n, done); r.Got? ==> Fresh(r.value) && |r.value| == |done| + n
    decreases n
  {
    if n > 0 {
      var name := Token(rest);
      if name.Got? {
        var key := Modifier(m, name.value);
        if key != 0 && key !in done {
          FreshSnoc(done, key);
          ModifierNamesFresh(m, name.rest, n - 1, done + [key]);
        }
      }
    }
  }

  lemma {:induction false} CodesFresh(rest: Rest, n: nat, done: seq<nat>)
    requires Fresh(done)
    ensures var r := Codes(rest, n, done); r.Got? ==> Fresh(r.value) && |r.value| == |done| + n
    decreases n
  {
    if n > 0 {
      var k := Integer(rest, 1, 247);
      if k.Got? && k.value !in done {
        FreshSnoc(done, k.value);
        CodesFresh(k.rest, n - 1, done + [k.value]);
      }
    }
  }

  lemma ModifiersOk(m: Keymap, rest: Rest)
    ensures Modifiers(m, rest).Got? ==> ModsOk(Modifiers(m, rest).value)
  {
    var n := Integer(rest, 0, 4);
    if n.Got? { ModifierNamesFresh(m, n.rest, n.value, []); }
  }

  lemma StrokePerformable(screen: Screen, kind: char, h: Header, p: Point, rest: Rest)
    requires InRange(kind, h) && kind != 'M'
    ensures var r := Stroke(screen, kind, h, p, rest); r.Got? ==> Performable(screen.keymap, r.value)
  {
    hide Points, ModsOk;
    if kind == 'D' || kind == 'L' { PointsCount(screen, rest, h.count - 1, []); }
  }

  lemma PointerPerformable(screen: Screen, kind: char, mods: seq<nat>, rest: Rest)
    requires PointerVerb(kind) && ModsOk(mods)
    ensures var r := Pointer(screen, kind, mods, rest); r.Got? ==> Performable(screen.keymap, r.value)
  {
    hide Modifiers, Stroke, PointAt, Integer, InRange, HeaderOf;
    HeaderInRange(screen.keymap, kind, mods, rest);
    var h := HeaderOf(screen.keymap, kind, mods, rest);
    if h.Got? {
      var p := PointAt(screen, h.rest);
      if p.Got? && kind != 'M' { StrokePerformable(screen, kind, h.value, p.value, p.rest); }
    }
  }

  predicate InRange(kind: char, h: Header) {
    && ModsOk(h.mods)
    && (kind != 'M' ==> 272 <= h.button <= 279)
    && (if kind == 'D' || kind == 'L' then 2 <= h.count <= 256 && h.ms <= 1000 else 1 <= h.count <= 3)
  }

  lemma HeaderInRange(m: Keymap, kind: char, mods: seq<nat>, rest: Rest)
    requires PointerVerb(kind) && ModsOk(mods)
    ensures var r := HeaderOf(m, kind, mods, rest); r.Got? ==> InRange(kind, r.value)
  {
    hide Modifiers, ModsOk, Token;
    if kind == 'V' {
      var b := Integer(rest, 272, 279);
      if b.Got? {
        var count := Integer(b.rest, 1, 3);
        if count.Got? { ModifiersOk(m, count.rest); }
      }
    }
  }

  lemma ChordPerformable(m: Keymap, kind: char, rest: Rest)
    ensures var r := ChordOf(m, kind, rest); r.Got? ==> Performable(m, r.value)
  {
    if kind == 'K' {
      var count := Integer(rest, 1, 16);
      if count.Got? { CodesFresh(count.rest, count.value, []); }
    } else {
      var name := Token(rest);
      if name.Got? { NamedChordNotEmpty(m, name.value, []); }
    }
  }

  lemma ReplacePerformable(screen: Screen, rest: Rest)
    ensures var r := ReplaceOf(screen, rest); r.Got? ==> Performable(screen.keymap, r.value)
  {
    hide NamedChord, Spells, Token, PointAt, Typable, TextOf;
    assert ChordOk([]);
    var p := PointAt(screen, rest);
    if p.Got? && Token(p.rest).Got? { FillPerformable(screen.keymap, Token(p.rest).value); }
  }

  lemma FillPerformable(m: Keymap, text: string)
    ensures FillOf(m, text).Some? ==> match FillOf(m, text).value
      case Erasing(keys) => ChordOk(keys)
      case Typing(cps) => 1 <= |cps| <= MAX_CHARACTERS && Typable(m, cps) && AllPrintable(cps)
  {
    assert ChordOk([]);
  }

  lemma GesturePerformable(screen: Screen, kind: char, mods: seq<nat>, rest: Rest)
    requires ModsOk(mods)
    ensures var r := GestureOf(screen, kind, mods, rest); r.Got? ==> Performable(screen.keymap, r.value)
  {
    hide Pointer, ChordOf, ReplaceOf, PointAt, Token;
    if PointerVerb(kind) {
      PointerPerformable(screen, kind, mods, rest);
    } else if kind == 'K' || kind == 'J' {
      ChordPerformable(screen.keymap, kind, rest);
    } else if kind == 'E' {
      ReplacePerformable(screen, rest);
    }
  }

  lemma VerbPerformable(screen: Screen, kind: char, rest: Rest)
    ensures var r := Verb(screen, kind, rest); r.Got? ==> Performable(screen.keymap, r.value)
  {
    hide GestureOf, Modifiers;
    if kind == 'Y' || kind == 'Z' {
      ModifiersOk(screen.keymap, rest);
      var mods := Modifiers(screen.keymap, rest);
      if mods.Got? { GesturePerformable(screen, if kind == 'Y' then 'W' else 'L', mods.value, mods.rest); }
    } else {
      GesturePerformable(screen, kind, [], rest);
    }
  }

  lemma MeaningPerformable(screen: Screen, line: string)
    ensures Meaning(screen, line).Some? ==> Performable(screen.keymap, Meaning(screen, line).value)
  {
    hide Verb;
    var verb := Token(Some(line));
    if verb.Got? && |verb.value| == 1 { VerbPerformable(screen, verb.value[0], verb.rest); }
  }
}
