// What holds of every line the guardian accepts.
module Plans {
  import opened Options
  import opened Words
  import opened Keymaps
  import opened Gestures
  import opened Grammar
  import opened Utf8
  import opened Deadline
  import opened Planner

  // An accepted plan fits the table with room to spare, is balanced, never goes back in time,
  // and, while the clock is far from wrapping, is due to end at least 100 ms before its lease.
  lemma AcceptedPlan(screen: Screen, line: string, nowUs: nat, leaseUs: nat)
    requires Meaning(screen, line).Some?
    ensures Performable(screen.keymap, Meaning(screen, line).value)
    ensures var es := Events(screen.keymap, Meaning(screen, line).value);
            var end := Finish(Meaning(screen, line).value);
      && 1 <= |es| <= MAX_STEPS
      && Play({}, es) == Some({})
      && Within(es, 0, end)
      && (nowUs < TWO64 / 2 && Accepted(screen, line, nowUs, leaseUs) ==>
        forall e <- es :: nowUs + e.at + 100000 < leaseUs)
  {
    hide Events, Finish, Play, Performable, Verb;
    MeaningPerformable(screen, line);
    var g := Meaning(screen, line).value;
    Balanced(screen.keymap, g);
    Timely(screen.keymap, g);
    FinishBounded(screen.keymap, g);
    assert forall e <- Events(screen.keymap, g) :: e.at <= Finish(g);
  }

  lemma FinishBounded(m: Keymap, g: Gesture)
    requires Performable(m, g)
    ensures Finish(g) <= 1_000_000
  {}

  // A text line types exactly the characters it spells, in order, and leaves shift up.
  lemma TypesItsText(screen: Screen, line: string)
    requires ShiftIsSilent(screen.keymap) && Meaning(screen, line).Some? && Meaning(screen, line).value.Type?
    ensures Performable(screen.keymap, Meaning(screen, line).value)
    ensures Typed(screen.keymap, false, Events(screen.keymap, Meaning(screen, line).value)) ==
      Meaning(screen, line).value.cps
  {
    hide Verb;
    MeaningPerformable(screen, line);
    TextTyped(screen.keymap, Meaning(screen, line).value.cps, false, 0);
  }

  // ---- Every text within the character limit has a line ----

  function HexDigit(n: nat): (c: char)
    requires n < 16
    ensures HexValue(c) == Some(n) && c != ' '
  {
    "0123456789abcdef"[n]
  }

  function HexText(bytes: seq<byte>): (text: string)
    ensures |text| == 2 * |bytes| && ' ' !in text
  {
    if bytes == [] then ""
    else HexText(bytes[..|bytes| - 1]) + [HexDigit(bytes[|bytes| - 1] / 16), HexDigit(bytes[|bytes| - 1] % 16)]
  }

  lemma {:induction false} HexRoundTrip(bytes: seq<byte>)
    ensures HexDigits(HexText(bytes)) && HexBytes(HexText(bytes)) == bytes
    decreases |bytes|
  {
    if bytes != [] {
      var n := |bytes| - 1;
      HexRoundTrip(bytes[..n]);
      var before := HexText(bytes[..n]);
      var text := HexText(bytes);
      forall i | 0 <= i < |text| ensures HexValue(text[i]).Some? {
        if i < 2 * n { assert text[i] == before[i]; }
      }
      forall i | 0 <= i < |bytes| ensures HexBytes(text)[i] == bytes[i] {
        if i < n {
          assert text[2 * i] == before[2 * i] && text[2 * i + 1] == before[2 * i + 1];
          assert HexBytes(before)[i] == bytes[i];
        }
      }
    }
  }

  lemma {:induction false} AtMostFourOctets(cps: seq<nat>)
    requires AllPrintable(cps)
    ensures |EncodeAll(cps)| <= 4 * |cps|
    decreases |cps|
  {
    if cps != [] { AtMostFourOctets(cps[1..]); }
  }

  function TextLine(cps: seq<nat>): string
    requires AllPrintable(cps)
  {
    "T " + HexText(EncodeAll(cps))
  }

  // Printed as a line and read back, a text is itself: neither the octet buffer nor the step
  // table refuses any text within the character limit.
  lemma TextLineRoundTrip(screen: Screen, cps: seq<nat>)
    requires 1 <= |cps| <= MAX_CHARACTERS && AllPrintable(cps) && Typable(screen.keymap, cps)
    ensures Meaning(screen, TextLine(cps)) == Some(Type(cps))
  {
    hide Spells, Typable, HexText, EncodeAll, TextOf;
    var text := HexText(EncodeAll(cps));
    var line := "T " + text;
    HexRoundTrip(EncodeAll(cps));
    AtMostFourOctets(cps);
    SpellsItself(cps);
    TextOfIs(screen.keymap, text, cps);
    assert IndexOf(line, ' ') == 1 by { assert line[0] == 'T' && line[1..][0] == ' '; }
    assert line[..1] == "T" && line[2..] == text;
    assert text != "" by { SomeOctets(cps); }
    assert IndexOf(text, ' ') == |text|;
    assert text[..|text|] == text;
  }

  lemma SomeOctets(cps: seq<nat>)
    requires cps != [] && AllPrintable(cps)
    ensures EncodeAll(cps) != []
  {}

  lemma SpellsItself(cps: seq<nat>)
    requires 1 <= |cps| <= MAX_CHARACTERS && AllPrintable(cps)
    ensures Spells(HexText(EncodeAll(cps)), cps)
  {
    HexRoundTrip(EncodeAll(cps));
    AtMostFourOctets(cps);
    SomeOctets(cps);
  }
}
