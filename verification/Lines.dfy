// Writing action lines: every gesture that can be spelled has a line, and the guardian reads it back.
module Lines {
  import opened Options
  import opened Words
  import opened Decimals
  import opened Lists
  import opened Keymaps
  import opened Utf8
  import opened Gestures
  import opened Grammar
  import opened Plans

  // A word stands between spaces.
  predicate Word(w: string) { w != "" && ' ' !in w }

  predicate AllWords(ws: seq<string>) { forall w <- ws :: Word(w) }

  function Joined(ws: seq<string>): string {
    if ws == [] then "" else if |ws| == 1 then ws[0] else ws[0] + " " + Joined(ws[1..])
  }

  // What is left of a line once only these words are.
  function Left(ws: seq<string>): Rest { if ws == [] then None else Some(Joined(ws)) }

  function Numeral(n: nat): (word: string)
    ensures Word(word) && Digital(word)
  {
    if n < 10 then ["0123456789"[n]] else Numeral(n / 10) + ["0123456789"[n % 10]]
  }

  lemma {:induction false} NumeralReads(n: nat)
    ensures Decimal(Numeral(n)) == n
  {
    if n >= 10 {
      NumeralReads(n / 10);
      assert Numeral(n)[..|Numeral(n)| - 1] == Numeral(n / 10);
    } else {
      assert Numeral(n)[..0] == "";
    }
  }

  lemma FirstSpace(w: string, more: string)
    requires Word(w)
    ensures IndexOf(w, ' ') == |w| && IndexOf(w + " " + more, ' ') == |w|
  {
    var line := w + " " + more;
    assert line[|w|] == ' ';
    assert forall k :: 0 <= k < |w| ==> line[k] == w[k] && w[k] in w;
  }

  lemma TokenReads(w: string, ws: seq<string>)
    requires Word(w) && AllWords(ws)
    ensures Token(Left([w] + ws)) == Got(w, Left(ws))
  {
    assert ([w] + ws)[1..] == ws;
    FirstSpace(w, Joined(ws));
    if ws == [] {
      assert w[..|w|] == w;
    } else {
      var line := w + " " + Joined(ws);
      assert Joined([w] + ws) == line;
      assert line[..|w|] == w && line[|w| + 1..] == Joined(ws);
    }
  }

  lemma IntegerReads(n: nat, ws: seq<string>, lo: nat, hi: nat)
    requires lo <= n <= hi && AllWords(ws)
    ensures Integer(Left([Numeral(n)] + ws), lo, hi) == Got(n, Left(ws))
  {
    hide Token, Left, Joined;
    TokenReads(Numeral(n), ws);
    NumeralReads(n);
  }

  // How coordinates are written: any way that is read back.
  datatype Writer = Writer(screen: Screen, show: real -> string) {
    predicate Fits(p: Point) {
      && Word(show(p.x)) && screen.number(show(p.x)) == Some(p.x) && 0.0 <= p.x < screen.width as real
      && Word(show(p.y)) && screen.number(show(p.y)) == Some(p.y) && 0.0 <= p.y < screen.height as real
    }

    // x before y.
    function At(p: Point): seq<string> { [show(p.x), show(p.y)] }

    function Path(ps: seq<Point>): seq<string> { if ps == [] then [] else At(ps[0]) + Path(ps[1..]) }

    function Named(mods: seq<nat>): seq<string> {
      if mods == [] then [] else [NameOf(screen.keymap, mods[0])] + Named(mods[1..])
    }

    // Modifiers by name, with their number in front.
    function Mods(mods: seq<nat>): seq<string> { [Numeral(|mods|)] + Named(mods) }
  }

  function NameOf(m: Keymap, key: nat): (name: string)
    ensures Word(name)
  {
    if Modifier(m, "ctrl") == key then "ctrl"
    else if Modifier(m, "shift") == key then "shift"
    else if Modifier(m, "alt") == key then "alt"
    else "super"
  }

  predicate Nameable(m: Keymap, mods: seq<nat>) {
    |mods| <= 4 && NoRepeats(mods) && forall k <- mods :: k != 0 && Modifier(m, NameOf(m, k)) == k
  }

  function Numerals(ks: seq<nat>): seq<string> { if ks == [] then [] else [Numeral(ks[0])] + Numerals(ks[1..]) }

  function DirectionName(axis: nat, sign: int): string {
    if axis == 0 then if sign < 0 then "up" else "down" else if sign < 0 then "left" else "right"
  }

  function Text(cps: seq<nat>): string
    requires AllPrintable(cps)
  {
    HexText(EncodeAll(cps))
  }

  // The gestures there are words for: points on the output, modifiers with a name, one of four
  // directions, and the select-all chord and the backspace key of the keymap.
  predicate Spellable(w: Writer, g: Gesture) {
    && Performable(w.screen.keymap, g)
    && match g
       case MoveTo(p) => w.Fits(p)
       case Clicks(mods, _, p, _) => Nameable(w.screen.keymap, mods) && w.Fits(p)
       case Drag(mods, _, start, path, _) =>
         Nameable(w.screen.keymap, mods) && w.Fits(start) && forall p <- path :: w.Fits(p)
       case Wheel(mods, axis, sign, _, p) =>
         Nameable(w.screen.keymap, mods) && axis <= 1 && (sign == 1 || sign == -1) && w.Fits(p)
       case Chord(_) => true
       case Type(_) => true
       case Replace(p, select, fill) =>
         && w.Fits(p) && NamedChord(w.screen.keymap, "ctrl+a", []) == Some(select)
         && (fill.Erasing? ==> Keystroke(w.screen.keymap, Symbol(0xff08), []) == Some(fill.keys))
  }

  // The verb, and the words after it.
  function Spelled(w: Writer, g: Gesture): seq<string>
    requires Spellable(w, g)
  {
    match g
    case MoveTo(p) => ["M"] + w.At(p)
    case Clicks(mods, button, p, count) =>
      if mods == [] && count == 1 then ["P"] + ([Numeral(button)] + w.At(p))
      else if mods == [] && count == 2 then ["Q"] + ([Numeral(button)] + w.At(p))
      else ["V"] + ClicksWords(w, button, count, mods, p)
    case Drag(mods, button, start, path, ms) =>
      if mods == [] && ms == 0 then ["D"] + ([Numeral(button), Numeral(|path| + 1)] + w.Path([start] + path))
      else if mods == [] then ["L"] + DragWords(w, button, ms, start, path)
      else ["Z"] + (w.Mods(mods) + DragWords(w, button, ms, start, path))
    case Wheel(mods, axis, sign, count, p) =>
      if mods == [] then ["W"] + WheelWords(w, axis, sign, count, p)
      else ["Y"] + (w.Mods(mods) + WheelWords(w, axis, sign, count, p))
    case Chord(keys) => ["K"] + ([Numeral(|keys|)] + Numerals(keys))
    case Type(cps) => ["T"] + [Text(cps)]
    case Replace(p, _, fill) => ["E"] + (w.At(p) + [if fill.Erasing? then "-" else Text(fill.cps)])
  }

  function ClicksWords(w: Writer, button: nat, count: nat, mods: seq<nat>, p: Point): seq<string> {
    [Numeral(button), Numeral(count)] + w.Mods(mods) + w.At(p)
  }

  function DragWords(w: Writer, button: nat, ms: nat, start: Point, path: seq<Point>): seq<string> {
    [Numeral(button), Numeral(|path| + 1), Numeral(ms)] + w.Path([start] + path)
  }

  function WheelWords(w: Writer, axis: nat, sign: int, count: nat, p: Point): seq<string> {
    [DirectionName(axis, sign), Numeral(count)] + w.At(p)
  }

  function Line(w: Writer, g: Gesture): string
    requires Spellable(w, g)
  {
    Joined(Spelled(w, g))
  }

  // A gesture written as a line is read back as itself.
  lemma LineRoundTrip(w: Writer, g: Gesture)
    requires Spellable(w, g)
    ensures Meaning(w.screen, Line(w, g)) == Some(g)
  {
    hide Nameable, Meaning, Joined, Numeral, Numerals, Typable, NamedChord, Keystroke, Text, ClicksWords, DragWords,
         WheelWords, Writer.Mods, Writer.At, Writer.Path, Writer.Fits;
    match g
    case MoveTo(p) => MReads(w, p);
    case Clicks(mods, button, p, count) =>
      if mods == [] && count <= 2 { PReads(w, button, p, count); } else { VReads(w, mods, button, p, count); }
    case Drag(mods, button, start, path, ms) =>
      if mods == [] && ms == 0 { DReads(w, button, start, path); }
      else if mods == [] { LReads(w, button, start, path, ms); }
      else { ZReads(w, mods, button, start, path, ms); }
    case Wheel(mods, axis, sign, count, p) =>
      if mods == [] { WReads(w, axis, sign, count, p); } else { YReads(w, mods, axis, sign, count, p); }
    case Chord(keys) => KReads(w, keys);
    case Type(cps) => TReads(w, cps);
    case Replace(p, select, fill) => EReads(w, p, select, fill);
  }

  // ---- The parts of a line ----

  lemma WordsOf(a: seq<string>, b: seq<string>)
    ensures AllWords(a + b) <==> AllWords(a) && AllWords(b)
  {
    forall w | w in a || w in b ensures w in a + b {}
  }

  lemma PointReads(w: Writer, p: Point, ws: seq<string>)
    requires w.Fits(p) && AllWords(ws)
    ensures PointAt(w.screen, Left(w.At(p) + ws)) == Got(p, Left(ws))
    ensures AllWords(w.At(p) + ws)
  {
    hide Token, Left, Joined, Word;
    WordsOf([w.show(p.y)], ws);
    TokenReads(w.show(p.y), ws);
    TokenReads(w.show(p.x), [w.show(p.y)] + ws);
    assert [w.show(p.x)] + ([w.show(p.y)] + ws) == w.At(p) + ws;
  }

  lemma {:induction false} PathWords(w: Writer, ps: seq<Point>)
    requires forall p <- ps :: w.Fits(p)
    ensures AllWords(w.Path(ps))
  {
    if ps != [] {
      PathWords(w, ps[1..]);
      assert w.Fits(ps[0]) && AllWords(w.At(ps[0]));
      WordsOf(w.At(ps[0]), w.Path(ps[1..]));
    }
  }

  lemma {:induction false} PointsRead(w: Writer, ps: seq<Point>, ws: seq<string>, done: seq<Point>)
    requires (forall p <- ps :: w.Fits(p)) && AllWords(ws)
    ensures Points(w.screen, Left(w.Path(ps) + ws), |ps|, done) == Got(done + ps, Left(ws))
    decreases |ps|
  {
    hide PointAt, Left, Writer.At, Writer.Fits, AllWords;
    if ps == [] {
      assert [] + ws == ws && done + ps == done;
    } else {
      var rest := w.Path(ps[1..]) + ws;
      PathWords(w, ps[1..]);
      WordsOf(w.Path(ps[1..]), ws);
      PointReads(w, ps[0], rest);
      PointsRead(w, ps[1..], ws, done + [ps[0]]);
      assert w.At(ps[0]) + rest == w.Path(ps) + ws;
      assert done + [ps[0]] + ps[1..] == done + ps;
    }
  }

  lemma {:induction false} NamesAreWords(w: Writer, mods: seq<nat>)
    ensures AllWords(w.Named(mods))
  {
    if mods != [] {
      NamesAreWords(w, mods[1..]);
      WordsOf([NameOf(w.screen.keymap, mods[0])], w.Named(mods[1..]));
    }
  }

  lemma {:induction false} NamesRead(w: Writer, mods: seq<nat>, ws: seq<string>, done: seq<nat>)
    requires NoRepeats(done + mods) && AllWords(ws)
    requires forall k <- mods :: k != 0 && Modifier(w.screen.keymap, NameOf(w.screen.keymap, k)) == k
    ensures ModifierNames(w.screen.keymap, Left(w.Named(mods) + ws), |mods|, done) == Got(done + mods, Left(ws))
    decreases |mods|
  {
    hide Token, Left, Modifier, NameOf, AllWords;
    if mods == [] {
      assert [] + ws == ws && done + mods == done;
    } else {
      var rest := w.Named(mods[1..]) + ws;
      NamesAreWords(w, mods[1..]);
      WordsOf(w.Named(mods[1..]), ws);
      TokenReads(NameOf(w.screen.keymap, mods[0]), rest);
      assert done + [mods[0]] + mods[1..] == done + mods;
      Apart(done, mods);
      assert forall k <- mods[1..] :: k in mods;
      NamesRead(w, mods[1..], ws, done + [mods[0]]);
      assert [NameOf(w.screen.keymap, mods[0])] + rest == w.Named(mods) + ws;
    }
  }

  lemma Apart(done: seq<nat>, ks: seq<nat>)
    requires NoRepeats(done + ks) && ks != []
    ensures ks[0] !in done
  {
    assert (done + ks)[|done|] == ks[0];
    assert forall i :: 0 <= i < |done| ==> (done + ks)[i] == done[i];
  }

  lemma ModsRead(w: Writer, mods: seq<nat>, ws: seq<string>)
    requires Nameable(w.screen.keymap, mods) && AllWords(ws)
    ensures Modifiers(w.screen.keymap, Left(w.Mods(mods) + ws)) == Got(mods, Left(ws))
    ensures AllWords(w.Mods(mods) + ws)
  {
    hide Integer, Left, ModifierNames, Modifier, NameOf, AllWords;
    NamesAreWords(w, mods);
    WordsOf(w.Named(mods), ws);
    Single(Numeral(|mods|));
    WordsOf([Numeral(|mods|)], w.Named(mods) + ws);
    IntegerReads(|mods|, w.Named(mods) + ws, 0, 4);
    assert [Numeral(|mods|)] + (w.Named(mods) + ws) == w.Mods(mods) + ws;
    assert [] + mods == mods;
    NamesRead(w, mods, ws, []);
  }

  lemma Single(word: string)
    requires Word(word)
    ensures AllWords([word])
  {}

  lemma {:induction false} NumeralsAreWords(ks: seq<nat>)
    ensures AllWords(Numerals(ks))
  {
    if ks != [] {
      NumeralsAreWords(ks[1..]);
      WordsOf([Numeral(ks[0])], Numerals(ks[1..]));
    }
  }

  lemma {:induction false} CodesRead(ks: seq<nat>, done: seq<nat>)
    requires NoRepeats(done + ks) && forall k <- ks :: 1 <= k <= 247
    ensures Codes(Left(Numerals(ks)), |ks|, done) == Got(done + ks, Left([]))
    decreases |ks|
  {
    hide Integer, Left, AllWords;
    if ks == [] {
      assert done + ks == done;
    } else {
      assert ks[0] in ks && forall k <- ks[1..] :: k in ks;
      NumeralsAreWords(ks[1..]);
      IntegerReads(ks[0], Numerals(ks[1..]), 1, 247);
      assert done + [ks[0]] + ks[1..] == done + ks;
      Apart(done, ks);
      CodesRead(ks[1..], done + [ks[0]]);
    }
  }

  // ---- The verbs ----

  // A line of words means what its verb makes of the rest.
  lemma VerbReads(w: Writer, verb: char, ws: seq<string>, g: Gesture)
    requires verb != ' ' && AllWords(ws) && Verb(w.screen, verb, Left(ws)) == Got(g, None)
    ensures Meaning(w.screen, Joined([[verb]] + ws)) == Some(g)
  {
    hide Verb, Token;
    TokenReads([verb], ws);
    assert Left([[verb]] + ws) == Some(Joined([[verb]] + ws));
  }

  lemma PointerVerbs(screen: Screen, kind: char, rest: Rest)
    requires kind == 'M' || kind == 'P' || kind == 'Q' || kind == 'D' || kind == 'L' || kind == 'V'
    ensures Verb(screen, kind, rest) == Pointer(screen, kind, [], rest)
  {
    hide Pointer;
  }

  lemma OtherVerbs(screen: Screen, rest: Rest)
    ensures Verb(screen, 'W', rest) == WheelOf(screen, [], rest)
    ensures Verb(screen, 'K', rest) == ChordOf(screen.keymap, 'K', rest)
    ensures Verb(screen, 'J', rest) == ChordOf(screen.keymap, 'J', rest)
    ensures Verb(screen, 'T', rest) == TypeOf(screen.keymap, rest)
    ensures Verb(screen, 'E', rest) == ReplaceOf(screen, rest)
  {
    hide Pointer, WheelOf, ChordOf, TypeOf, ReplaceOf, Modifiers;
  }

  lemma ModifiedVerbs(screen: Screen, rest: Rest, mods: seq<nat>, more: Rest)
    requires Modifiers(screen.keymap, rest) == Got(mods, more)
    ensures Verb(screen, 'Y', rest) == WheelOf(screen, mods, more)
    ensures Verb(screen, 'Z', rest) == Pointer(screen, 'L', mods, more)
  {
    hide Pointer, WheelOf, ChordOf, TypeOf, ReplaceOf, Modifiers;
  }

  lemma MReads(w: Writer, p: Point)
    requires w.Fits(p)
    ensures Meaning(w.screen, Joined(["M"] + w.At(p))) == Some(MoveTo(p))
  {
    hide Verb, PointAt, Writer.Fits, AllWords, Joined;
    EndsWith(w, p);
    PointerVerbs(w.screen, 'M', Left(w.At(p)));
    VerbReads(w, 'M', w.At(p), MoveTo(p));
  }

  // A point that ends a line.
  lemma EndsWith(w: Writer, p: Point)
    requires w.Fits(p)
    ensures PointAt(w.screen, Left(w.At(p))) == Got(p, None) && AllWords(w.At(p))
  {
    assert AllWords([]);
    PointReads(w, p, []);
    assert w.At(p) + [] == w.At(p);
  }

  // A numeral and more words.
  lemma NumeralFirst(n: nat, ws: seq<string>)
    requires AllWords(ws)
    ensures AllWords([Numeral(n)] + ws)
  {
    Single(Numeral(n));
    WordsOf([Numeral(n)], ws);
  }

  lemma ButtonHeader(m: Keymap, kind: char, button: nat, ws: seq<string>)
    requires (kind == 'P' || kind == 'Q') && 272 <= button <= 279 && AllWords(ws)
    ensures HeaderOf(m, kind, [], Left([Numeral(button)] + ws)) ==
            Got(Header(button, if kind == 'Q' then 2 else 1, 0, []), Left(ws))
  {
    hide Integer, Left, AllWords;
    IntegerReads(button, ws, 272, 279);
  }

  lemma ClicksHeader(w: Writer, button: nat, count: nat, mods: seq<nat>, ws: seq<string>)
    requires 272 <= button <= 279 && 1 <= count <= 3 && Nameable(w.screen.keymap, mods) && AllWords(ws)
    ensures var words := [Numeral(button), Numeral(count)] + w.Mods(mods) + ws;
      && AllWords(words)
      && HeaderOf(w.screen.keymap, 'V', [], Left(words)) == Got(Header(button, count, 0, mods), Left(ws))
  {
    hide Integer, Left, AllWords, Modifiers, Nameable, Writer.Mods;
    var rest := w.Mods(mods) + ws;
    ModsRead(w, mods, ws);
    NumeralFirst(count, rest);
    IntegerReads(count, rest, 1, 3);
    NumeralFirst(button, [Numeral(count)] + rest);
    IntegerReads(button, [Numeral(count)] + rest, 272, 279);
    assert [Numeral(button)] + ([Numeral(count)] + rest) == [Numeral(button), Numeral(count)] + w.Mods(mods) + ws;
  }

  lemma PathHeader(m: Keymap, button: nat, count: nat, ws: seq<string>)
    requires 272 <= button <= 279 && 2 <= count <= 256 && AllWords(ws)
    ensures var words := [Numeral(button), Numeral(count)] + ws;
      AllWords(words) && HeaderOf(m, 'D', [], Left(words)) == Got(Header(button, count, 0, []), Left(ws))
  {
    hide Integer, Left, AllWords;
    NumeralFirst(count, ws);
    IntegerReads(count, ws, 2, 256);
    NumeralFirst(button, [Numeral(count)] + ws);
    IntegerReads(button, [Numeral(count)] + ws, 272, 279);
    assert [Numeral(button)] + ([Numeral(count)] + ws) == [Numeral(button), Numeral(count)] + ws;
  }

  lemma TimedHeader(m: Keymap, mods: seq<nat>, button: nat, count: nat, ms: nat, ws: seq<string>)
    requires 272 <= button <= 279 && 2 <= count <= 256 && ms <= 1000 && AllWords(ws)
    ensures var words := [Numeral(button), Numeral(count), Numeral(ms)] + ws;
      AllWords(words) && HeaderOf(m, 'L', mods, Left(words)) == Got(Header(button, count, ms, mods), Left(ws))
  {
    hide Integer, Left, AllWords;
    var (one, two) := ([Numeral(ms)] + ws, [Numeral(count)] + ([Numeral(ms)] + ws));
    NumeralFirst(ms, ws);
    IntegerReads(ms, ws, 0, 1000);
    NumeralFirst(count, one);
    IntegerReads(count, one, 2, 256);
    NumeralFirst(button, two);
    IntegerReads(button, two, 272, 279);
    assert [Numeral(button)] + two == [Numeral(button), Numeral(count), Numeral(ms)] + ws;
  }

  // P: one click, and Q: two.
  lemma PReads(w: Writer, button: nat, p: Point, count: nat)
    requires 272 <= button <= 279 && 1 <= count <= 2 && w.Fits(p)
    ensures Meaning(w.screen, Joined([[if count == 1 then 'P' else 'Q']] + ([Numeral(button)] + w.At(p)))) ==
            Some(Clicks([], button, p, count))
  {
    hide Verb, HeaderOf, PointAt, AllWords, Joined, Left, Meaning, Writer.Fits, Writer.At;
    var (kind, words) := (if count == 1 then 'P' else 'Q', [Numeral(button)] + w.At(p));
    EndsWith(w, p);
    ButtonHeader(w.screen.keymap, kind, button, w.At(p));
    NumeralFirst(button, w.At(p));
    PointerVerbs(w.screen, kind, Left(words));
    VerbReads(w, kind, words, Clicks([], button, p, count));
  }

  // V: up to three clicks, with any modifiers.
  lemma VReads(w: Writer, mods: seq<nat>, button: nat, p: Point, count: nat)
    requires 272 <= button <= 279 && 1 <= count <= 3 && Nameable(w.screen.keymap, mods) && w.Fits(p)
    ensures Meaning(w.screen, Joined(["V"] + ClicksWords(w, button, count, mods, p))) ==
            Some(Clicks(mods, button, p, count))
  {
    hide Verb, HeaderOf, PointAt, AllWords, Joined, Left, Meaning, Nameable, Writer.Fits, Writer.Mods, Writer.At;
    var words := ClicksWords(w, button, count, mods, p);
    EndsWith(w, p);
    ClicksHeader(w, button, count, mods, w.At(p));
    PointerVerbs(w.screen, 'V', Left(words));
    VerbReads(w, 'V', words, Clicks(mods, button, p, count));
  }

  // The points of a drag, which end its line.
  lemma DragPoints(w: Writer, kind: char, h: Header, start: Point, path: seq<Point>)
    requires (kind == 'D' || kind == 'L') && h.count == |path| + 1
    requires w.Fits(start) && forall p <- path :: w.Fits(p)
    ensures AllWords(w.Path([start] + path))
    ensures PointAt(w.screen, Left(w.Path([start] + path))) == Got(start, Left(w.Path(path)))
    ensures Stroke(w.screen, kind, h, start, Left(w.Path(path))) == Got(Drag(h.mods, h.button, start, path, h.ms), None)
  {
    hide PointAt, Points, Writer.At, Writer.Fits, Joined, Word;
    PathWords(w, path);
    PathWords(w, [start] + path);
    PointReads(w, start, w.Path(path));
    assert ([start] + path)[1..] == path;
    assert AllWords([]);
    PointsRead(w, path, [], []);
    assert w.Path(path) + [] == w.Path(path) && [] + path == path;
  }

  ghost predicate Draggable(w: Writer, button: nat, start: Point, path: seq<Point>) {
    272 <= button <= 279 && 1 <= |path| <= 255 && w.Fits(start) && forall p <- path :: w.Fits(p)
  }

  // D: a drag without a pause.
  lemma DReads(w: Writer, button: nat, start: Point, path: seq<Point>)
    requires Draggable(w, button, start, path)
    ensures Meaning(w.screen, Joined(["D"] + ([Numeral(button), Numeral(|path| + 1)] + w.Path([start] + path)))) ==
            Some(Drag([], button, start, path, 0))
  {
    hide Verb, HeaderOf, PointAt, Stroke, AllWords, Joined, Left, Meaning, Writer.Fits, Writer.Path;
    var (ps, count) := ([start] + path, |path| + 1);
    var words := [Numeral(button), Numeral(count)] + w.Path(ps);
    DragPoints(w, 'D', Header(button, count, 0, []), start, path);
    PathHeader(w.screen.keymap, button, count, w.Path(ps));
    PointerVerbs(w.screen, 'D', Left(words));
    VerbReads(w, 'D', words, Drag([], button, start, path, 0));
  }

  lemma TimedDrag(w: Writer, mods: seq<nat>, button: nat, start: Point, path: seq<Point>, ms: nat)
    requires Draggable(w, button, start, path) && ms <= 1000
    ensures var words := DragWords(w, button, ms, start, path);
      AllWords(words) && Pointer(w.screen, 'L', mods, Left(words)) == Got(Drag(mods, button, start, path, ms), None)
  {
    hide HeaderOf, PointAt, Stroke, AllWords, Joined, Left, Writer.Fits, Writer.Path;
    var (ps, count) := ([start] + path, |path| + 1);
    DragPoints(w, 'L', Header(button, count, ms, mods), start, path);
    TimedHeader(w.screen.keymap, mods, button, count, ms, w.Path(ps));
  }

  // L: a drag that takes some time.
  lemma LReads(w: Writer, button: nat, start: Point, path: seq<Point>, ms: nat)
    requires Draggable(w, button, start, path) && ms <= 1000
    ensures Meaning(w.screen, Joined(["L"] + DragWords(w, button, ms, start, path))) ==
            Some(Drag([], button, start, path, ms))
  {
    hide Verb, Pointer, AllWords, Joined, Left, Meaning, DragWords;
    var words := DragWords(w, button, ms, start, path);
    TimedDrag(w, [], button, start, path, ms);
    PointerVerbs(w.screen, 'L', Left(words));
    VerbReads(w, 'L', words, Drag([], button, start, path, ms));
  }

  // Z: the same with any modifiers.
  lemma ZReads(w: Writer, mods: seq<nat>, button: nat, start: Point, path: seq<Point>, ms: nat)
    requires Draggable(w, button, start, path) && ms <= 1000 && Nameable(w.screen.keymap, mods)
    ensures Meaning(w.screen, Joined(["Z"] + (w.Mods(mods) + DragWords(w, button, ms, start, path)))) ==
            Some(Drag(mods, button, start, path, ms))
  {
    hide Verb, Pointer, Modifiers, AllWords, Joined, Left, Meaning, Nameable, DragWords, Writer.Mods;
    var words := DragWords(w, button, ms, start, path);
    TimedDrag(w, mods, button, start, path, ms);
    ModsRead(w, mods, words);
    ModifiedVerbs(w.screen, Left(w.Mods(mods) + words), mods, Left(words));
    VerbReads(w, 'Z', w.Mods(mods) + words, Drag(mods, button, start, path, ms));
  }

  // Up and left are negative, up and down on axis 0.
  lemma DirectionReads(axis: nat, sign: int)
    requires axis <= 1 && (sign == 1 || sign == -1)
    ensures Word(DirectionName(axis, sign)) && Direction(DirectionName(axis, sign)) == Some((axis, sign))
  {}

  lemma NotchesRead(w: Writer, mods: seq<nat>, axis: nat, sign: int, count: nat, p: Point)
    requires axis <= 1 && (sign == 1 || sign == -1) && 1 <= count <= 20 && w.Fits(p)
    ensures var words := WheelWords(w, axis, sign, count, p);
      AllWords(words) && WheelOf(w.screen, mods, Left(words)) == Got(Wheel(mods, axis, sign, count, p), None)
  {
    hide Token, Integer, PointAt, AllWords, Left, Writer.Fits, Writer.At, Direction, DirectionName;
    var direction := DirectionName(axis, sign);
    DirectionReads(axis, sign);
    EndsWith(w, p);
    NumeralFirst(count, w.At(p));
    IntegerReads(count, w.At(p), 1, 20);
    TokenReads(direction, [Numeral(count)] + w.At(p));
    Single(direction);
    WordsOf([direction], [Numeral(count)] + w.At(p));
    assert [direction] + ([Numeral(count)] + w.At(p)) == [direction, Numeral(count)] + w.At(p);
  }

  // W: the wheel.
  lemma WReads(w: Writer, axis: nat, sign: int, count: nat, p: Point)
    requires axis <= 1 && (sign == 1 || sign == -1) && 1 <= count <= 20 && w.Fits(p)
    ensures Meaning(w.screen, Joined(["W"] + WheelWords(w, axis, sign, count, p))) ==
            Some(Wheel([], axis, sign, count, p))
  {
    hide Verb, WheelOf, AllWords, Joined, Left, Meaning, WheelWords, Writer.Fits;
    var words := WheelWords(w, axis, sign, count, p);
    NotchesRead(w, [], axis, sign, count, p);
    OtherVerbs(w.screen, Left(words));
    VerbReads(w, 'W', words, Wheel([], axis, sign, count, p));
  }

  // Y: the same with any modifiers.
  lemma YReads(w: Writer, mods: seq<nat>, axis: nat, sign: int, count: nat, p: Point)
    requires axis <= 1 && (sign == 1 || sign == -1) && 1 <= count <= 20 && w.Fits(p)
    requires Nameable(w.screen.keymap, mods)
    ensures Meaning(w.screen, Joined(["Y"] + (w.Mods(mods) + WheelWords(w, axis, sign, count, p)))) ==
            Some(Wheel(mods, axis, sign, count, p))
  {
    hide Verb, WheelOf, AllWords, Joined, Left, Meaning, Modifiers, Nameable, WheelWords, Writer.Fits, Writer.Mods;
    var words := WheelWords(w, axis, sign, count, p);
    NotchesRead(w, mods, axis, sign, count, p);
    ModsRead(w, mods, words);
    ModifiedVerbs(w.screen, Left(w.Mods(mods) + words), mods, Left(words));
    VerbReads(w, 'Y', w.Mods(mods) + words, Wheel(mods, axis, sign, count, p));
  }

  // K: a chord by its keys.
  lemma KReads(w: Writer, keys: seq<nat>)
    requires ChordOk(keys) && keys != []
    ensures Meaning(w.screen, Joined(["K"] + ([Numeral(|keys|)] + Numerals(keys)))) == Some(Chord(keys))
  {
    hide Verb, AllWords, Left, Joined, Meaning, ChordOf, ChordOk, Numeral, Numerals;
    var words := [Numeral(|keys|)] + Numerals(keys);
    KeysRead(w.screen.keymap, keys);
    NumeralFirst(|keys|, Numerals(keys));
    OtherVerbs(w.screen, Left(words));
    VerbReads(w, 'K', words, Chord(keys));
  }

  lemma KeysRead(m: Keymap, keys: seq<nat>)
    requires ChordOk(keys) && keys != []
    ensures AllWords(Numerals(keys))
    ensures ChordOf(m, 'K', Left([Numeral(|keys|)] + Numerals(keys))) == Got(Chord(keys), None)
  {
    hide Integer, Codes, AllWords, Joined, Numerals, Numeral, NamedChord, Token;
    NumeralsAreWords(keys);
    IntegerReads(|keys|, Numerals(keys), 1, 16);
    assert [] + keys == keys;
    CodesRead(keys, []);
  }

  // J: a chord by its name.
  lemma JReads(w: Writer, name: string, keys: seq<nat>)
    requires Word(name) && |name| <= 128 && NamedChord(w.screen.keymap, name, []) == Some(keys)
    ensures Meaning(w.screen, Joined(["J"] + [name])) == Some(Chord(keys))
  {
    hide Verb, Token, NamedChord, Joined, Left, Meaning, AllWords;
    LastWord(name);
    OtherVerbs(w.screen, Left([name]));
    VerbReads(w, 'J', [name], Chord(keys));
  }

  lemma LastWord(word: string)
    requires Word(word)
    ensures Token(Left([word])) == Got(word, None) && AllWords([word])
  {
    assert AllWords([]);
    TokenReads(word, []);
    assert [word] + [] == [word];
  }

  lemma TextReads(m: Keymap, cps: seq<nat>)
    requires 1 <= |cps| <= 512 && AllPrintable(cps) && Typable(m, cps)
    ensures Word(Text(cps)) && Text(cps) != "-" && TextOf(m, Text(cps)) == Some(cps)
  {
    hide Spells, Typable, HexText, EncodeAll, TextOf;
    SpellsItself(cps);
    SomeOctets(cps);
    TextOfIs(m, Text(cps), cps);
    assert |Text(cps)| % 2 == 0;
  }

  // T: a text.
  lemma TReads(w: Writer, cps: seq<nat>)
    requires 1 <= |cps| <= 512 && AllPrintable(cps) && Typable(w.screen.keymap, cps)
    ensures Meaning(w.screen, Joined(["T"] + [Text(cps)])) == Some(Type(cps))
  {
    hide Verb, Token, Text, TextOf, Joined, Left, Meaning, Typable, AllWords;
    TextReads(w.screen.keymap, cps);
    LastWord(Text(cps));
    OtherVerbs(w.screen, Left([Text(cps)]));
    VerbReads(w, 'T', [Text(cps)], Type(cps));
  }

  // E: a text that replaces what is there, or nothing at all.
  lemma EReads(w: Writer, p: Point, select: seq<nat>, fill: Fill)
    requires Spellable(w, Replace(p, select, fill))
    ensures Meaning(w.screen, Line(w, Replace(p, select, fill))) == Some(Replace(p, select, fill))
  {
    hide Verb, Token, Text, TextOf, Joined, Left, Meaning, Typable, AllWords, PointAt, NamedChord, Keystroke, Writer.At,
         Writer.Fits;
    var word := if fill.Erasing? then "-" else Text(fill.cps);
    if fill.Typing? { TextReads(w.screen.keymap, fill.cps); }
    LastWord(word);
    PointReads(w, p, [word]);
    OtherVerbs(w.screen, Left(w.At(p) + [word]));
    VerbReads(w, 'E', w.At(p) + [word], Replace(p, select, fill));
  }
}
