// How such an object is written, character by character, and that reading and writing agree.
module ReplySyntax {
  import opened Options
  import opened Decimals
  import opened ReplyGrammar

  // Space, tab, carriage return and newline.
  ghost predicate AllBlank(s: string) {
    forall i :: 0 <= i < |s| ==> s[i] as int == 32 || s[i] as int == 9 || s[i] as int == 13 || s[i] as int == 10
  }

  // Printable ASCII without the quote and the backslash.
  ghost predicate AllPlain(s: string) {
    forall i :: 0 <= i < |s| ==> 32 <= s[i] as int <= 126 && s[i] as int != 34 && s[i] as int != 92
  }

  // The guardian's own fields have the right type and range.
  ghost predicate Proper(f: Field) {
    && (f.name == "ok" || f.name == "armed" || f.name == "release_acknowledged" || f.name == "release_status_v1" ==>
          f.value.Boolean?)
    && (f.name == "keys" ==> f.value.Numeric? && f.value.number <= 248)
    && (f.name == "buttons" ==> f.value.Numeric? && f.value.number <= 8)
    && (f.name == "rejected" ==> f.value.Numeric?)
    && (f.name == "error" ==> f.value.Quoted?)
  }

  // A field as it is written: the text of its value, and the blanks before and after the
  // colon, after the value, and after the comma that follows.
  datatype Written = Written(field: Field, text: string, before: string, middle: string, after: string, next: string)

  ghost predicate Spelled(value: Scalar, text: string) {
    match value
    case Boolean(truth) => text == if truth then "true" else "false"
    case Numeric(number) =>
      && Digital(text) && text != "" && (|text| > 1 ==> text[0] != '0') && Decimal(text) == number
      && number <= 0xffff_ffff_ffff_ffff
    case Quoted(t) => AllPlain(t) && |t| < 512 && text == "\"" + (t + "\"")
  }

  ghost predicate WellWritten(w: Written) {
    && AllPlain(w.field.name) && |w.field.name| < 64 && Proper(w.field) && Spelled(w.field.value, w.text)
    && AllBlank(w.before) && AllBlank(w.middle) && AllBlank(w.after) && AllBlank(w.next)
  }

  ghost predicate AllWellWritten(ws: seq<Written>) { forall i :: 0 <= i < |ws| ==> WellWritten(ws[i]) }

  function FieldsIn(ws: seq<Written>): seq<Field> { seq(|ws|, i requires 0 <= i < |ws| => ws[i].field) }

  // The characters of a field, of a list of fields, and of a whole reply, in front of rest.
  function WriteField(w: Written, rest: string): string {
    "\"" + (w.field.name + ("\"" + (w.before + (":" + (w.middle + (w.text + (w.after + rest)))))))
  }

  function WriteFields(ws: seq<Written>, rest: string): string
    requires ws != []
  {
    if |ws| == 1 then WriteField(ws[0], rest)
    else WriteField(ws[0], "," + (ws[0].next + WriteFields(ws[1..], rest)))
  }

  datatype Document = Document(lead: string, open: string, ws: seq<Written>, trail: string)

  // A flat object with distinct names, one of them "ok".
  ghost predicate Flat(d: Document) {
    && AllBlank(d.lead) && AllBlank(d.open) && AllBlank(d.trail)
    && d.ws != [] && AllWellWritten(d.ws) && DistinctNames(FieldsIn(d.ws)) && Named(FieldsIn(d.ws), "ok")
  }

  function Write(d: Document): string
    requires d.ws != []
  {
    d.lead + ("{" + (d.open + WriteFields(d.ws, "}" + d.trail)))
  }

  // ---- Reading what was written ----

  predicate NotBlank(s: string) { s == "" || !Blank(s[0]) }

  lemma {:induction false} SkipOver(b: string, r: string)
    requires AllBlank(b) && NotBlank(r)
    ensures Skip(b + r) == r
    decreases |b|
  {
    if b == "" {
      assert b + r == r;
    } else {
      assert (b + r)[1..] == b[1..] + r;
      SkipOver(b[1..], r);
    }
  }

  lemma {:induction false} ReadContent(t: string, r: string, done: string, cap: nat)
    requires AllPlain(t) && |done| + |t| < cap
    ensures Content(t + ("\"" + r), done, cap) == Next(done + t, r)
    decreases |t|
  {
    var s := t + ("\"" + r);
    if t == "" {
      assert s == "\"" + r && done + t == done;
    } else {
      assert s[1..] == t[1..] + ("\"" + r) && done + [t[0]] + t[1..] == done + t;
      ReadContent(t[1..], r, done + [t[0]], cap);
    }
  }

  lemma ReadString(t: string, r: string, cap: nat)
    requires AllPlain(t) && |t| < cap
    ensures StringOf("\"" + (t + ("\"" + r)), cap) == Next(t, r)
  {
    ReadContent(t, r, "", cap);
    assert "" + t == t;
    assert ("\"" + (t + ("\"" + r)))[1..] == t + ("\"" + r);
  }

  lemma {:induction false} ReadDigits(t: string, r: string, done: string)
    requires Digital(t) && (r == "" || !Digit(r[0]))
    ensures DigitsOf(t + r, done) == Next(done + t, r)
    decreases |t|
  {
    if t == "" {
      assert t + r == r && done + t == done;
    } else {
      assert (t + r)[1..] == t[1..] + r && done + [t[0]] + t[1..] == done + t;
      ReadDigits(t[1..], r, done + [t[0]]);
    }
  }

  lemma ReadScalar(value: Scalar, text: string, r: string)
    requires Spelled(value, text) && (r == "" || !Digit(r[0]))
    ensures ScalarOf(text + r) == Next(value, r) && NotBlank(text + r)
  {
    match value
    case Boolean(truth) => ReadTruth(truth, r);
    case Numeric(number) => ReadNumber(number, text, r);
    case Quoted(t) => ReadQuoted(t, r);
  }

  lemma ReadTruth(truth: bool, r: string)
    ensures var s := (if truth then "true" else "false") + r; ScalarOf(s) == Next(Boolean(truth), r) && NotBlank(s)
  {
    var text := if truth then "true" else "false";
    var s := text + r;
    assert s[..|text|] == text && s[|text|..] == r;
    if !truth { assert s[0] == 'f'; }
  }

  lemma ReadNumber(number: nat, text: string, r: string)
    requires Spelled(Numeric(number), text) && (r == "" || !Digit(r[0]))
    ensures ScalarOf(text + r) == Next(Numeric(number), r) && NotBlank(text + r)
  {
    hide StringOf;
    var s := text + r;
    assert s[0] == text[0] && Digit(s[0]);
    ReadDigits(text, r, "");
    assert "" + text == text;
  }

  lemma ReadQuoted(t: string, r: string)
    requires AllPlain(t) && |t| < 512
    ensures var s := "\"" + (t + "\"") + r; ScalarOf(s) == Next(Quoted(t), r) && NotBlank(s)
  {
    hide StringOf, DigitsOf;
    var s := "\"" + (t + "\"") + r;
    assert s == "\"" + (t + ("\"" + r));
    assert s[0] == '"';
    ReadString(t, r, VALUE_CAP);
  }

  // The end of a field: a comma or the closing brace.
  predicate Ends(rest: string) { rest != "" && (rest[0] == ',' || rest[0] == '}') }

  lemma ReadField(w: Written, rest: string)
    requires WellWritten(w) && Ends(rest)
    ensures FieldOf(WriteField(w, rest)) == Next(w.field, rest)
  {
    var r3 := w.after + rest;
    var r2 := w.middle + (w.text + r3);
    var r1 := w.before + (":" + r2);
    ReadString(w.field.name, r1, NAME_CAP);
    SkipOver(w.before, ":" + r2);
    assert (":" + r2)[1..] == r2;
    assert r3[0] == if w.after == "" then rest[0] else w.after[0];
    ReadScalar(w.field.value, w.text, r3);
    SkipOver(w.middle, w.text + r3);
    SkipOver(w.after, rest);
  }

  lemma {:induction false} ReadFields(ws: seq<Written>, trail: string, done: seq<Field>)
    requires ws != [] && AllWellWritten(ws) && AllBlank(trail) && DistinctNames(done + FieldsIn(ws))
    ensures FieldsOf(WriteFields(ws, "}" + trail), done) == Some(done + FieldsIn(ws))
    decreases |ws|
  {
    var w, all := ws[0], done + FieldsIn(ws);
    assert !Named(done, w.field.name) by {
      assert all[|done|] == w.field;
      assert forall i :: 0 <= i < |done| ==> all[i] == done[i];
    }
    if |ws| == 1 {
      ReadField(w, "}" + trail);
      assert ("}" + trail)[1..] == trail && trail + "" == trail;
      SkipOver(trail, "");
      assert FieldsIn(ws) == [w.field];
    } else {
      var more := w.next + WriteFields(ws[1..], "}" + trail);
      ReadField(w, "," + more);
      assert ("," + more)[1..] == more;
      SkipOver(w.next, WriteFields(ws[1..], "}" + trail));
      assert all == (done + [w.field]) + FieldsIn(ws[1..]);
      ReadFields(ws[1..], trail, done + [w.field]);
    }
  }

  // Every flat object of distinct, well-typed names is accepted and yields its fields.
  lemma Complete(d: Document)
    requires Flat(d)
    ensures ReplyOf(Write(d)) == Some(FieldsIn(d.ws))
  {
    hide Skip, FieldsOf, AllWellWritten, AllBlank;
    var fields := WriteFields(d.ws, "}" + d.trail);
    SkipOver(d.lead, "{" + (d.open + fields));
    assert ("{" + (d.open + fields))[1..] == d.open + fields;
    assert fields[0] == '"';
    SkipOver(d.open, fields);
    assert [] + FieldsIn(d.ws) == FieldsIn(d.ws);
    ReadFields(d.ws, d.trail, []);
  }

  // ---- Writing what was read ----

  lemma {:induction false} Skipped(s: string) returns (b: string)
    ensures AllBlank(b) && s == b + Skip(s) && NotBlank(Skip(s))
    decreases |s|
  {
    if s != "" && Blank(s[0]) {
      var rest := Skipped(s[1..]);
      b := [s[0]] + rest;
    } else {
      b := "";
    }
  }

  lemma {:induction false} ContentWritten(s: string, done: string, cap: nat) returns (t: string)
    requires Content(s, done, cap).Next? && |done| < cap
    ensures AllPlain(t) && Content(s, done, cap).value == done + t && |done + t| < cap
    ensures s == t + ("\"" + Content(s, done, cap).rest)
    decreases |s|
  {
    if s[0] == '"' {
      t := "";
      assert done + t == done && s == "\"" + s[1..];
    } else {
      var rest := ContentWritten(s[1..], done + [s[0]], cap);
      t := [s[0]] + rest;
      assert done + [s[0]] + rest == done + t;
      assert s == [s[0]] + s[1..];
    }
  }

  lemma StringWritten(s: string, cap: nat)
    requires StringOf(s, cap).Next? && cap > 0
    ensures var r := StringOf(s, cap); AllPlain(r.value) && |r.value| < cap && s == "\"" + (r.value + ("\"" + r.rest))
  {
    var t := ContentWritten(s[1..], "", cap);
    assert "" + t == t;
    assert s == "\"" + s[1..];
  }

  lemma {:induction false} DigitsWritten(s: string, done: string)
    requires Digital(done)
    ensures var r := DigitsOf(s, done); r.Next? && Digital(r.value) && done + s == r.value + r.rest
    decreases |s|
  {
    if s != "" && Digit(s[0]) {
      assert done + s == (done + [s[0]]) + s[1..];
      DigitsWritten(s[1..], done + [s[0]]);
    }
  }

  lemma ScalarWritten(s: string) returns (text: string)
    requires ScalarOf(s).Next?
    ensures Spelled(ScalarOf(s).value, text) && s == text + ScalarOf(s).rest
  {
    hide StringOf, DigitsOf;
    if "true" <= s {
      text := "true";
      Parted(s, text);
    } else if "false" <= s {
      text := "false";
      Parted(s, text);
    } else if s != "" && Digit(s[0]) {
      DigitsWritten(s, "");
      assert "" + s == s;
      text := DigitsOf(s, "").value;
    } else {
      StringWritten(s, VALUE_CAP);
      var r := StringOf(s, VALUE_CAP);
      text := "\"" + (r.value + "\"");
      Requoted(r.value, r.rest);
    }
  }

  lemma Parted(s: string, word: string)
    requires word <= s
    ensures s == word + s[|word|..]
  {}

  lemma Requoted(t: string, rest: string)
    ensures "\"" + (t + ("\"" + rest)) == ("\"" + (t + "\"")) + rest
  {}

  lemma FieldWritten(s: string) returns (w: Written)
    requires FieldOf(s).Next?
    ensures WellWritten(w) && w.field == FieldOf(s).value && w.next == "" && s == WriteField(w, FieldOf(s).rest)
  {
    StringWritten(s, NAME_CAP);
    var name := StringOf(s, NAME_CAP);
    var before := Skipped(name.rest);
    var colon := Skip(name.rest);
    assert colon == ":" + colon[1..];
    var middle := Skipped(colon[1..]);
    var text := ScalarWritten(Skip(colon[1..]));
    var value := ScalarOf(Skip(colon[1..]));
    var after := Skipped(value.rest);
    w := Written(Field(name.value, value.value), text, before, middle, after, "");
  }

  lemma NextKept(w: Written, next: string, rest: string)
    requires WellWritten(w) && AllBlank(next)
    ensures WellWritten(w.(next := next)) && WriteField(w.(next := next), rest) == WriteField(w, rest)
  {}

  lemma {:induction false} FieldsWritten(s: string, done: seq<Field>) returns (ws: seq<Written>, trail: string)
    requires FieldsOf(s, done).Some? && DistinctNames(done)
    ensures ws != [] && AllWellWritten(ws) && AllBlank(trail) && s == WriteFields(ws, "}" + trail)
    ensures FieldsOf(s, done).value == done + FieldsIn(ws) && DistinctNames(done + FieldsIn(ws))
    decreases |s|
  {
    hide FieldOf, WriteField, WellWritten, Skip;
    var w := FieldWritten(s);
    var f := FieldOf(s);
    var rest := f.rest;
    FieldShorter(s);
    if rest[0] == '}' {
      ws := [w];
      assert rest == "}" + rest[1..];
      trail := Skipped(rest[1..]);
      assert trail + "" == trail;
      assert FieldsIn(ws) == [w.field];
    } else {
      assert rest == "," + rest[1..];
      SkipShorter(rest[1..]);
      var next := Skipped(rest[1..]);
      var more;
      more, trail := FieldsWritten(Skip(rest[1..]), done + [f.value]);
      ws := [w.(next := next)] + more;
      NextKept(w, next, rest);
      assert ws[1..] == more;
      assert done + FieldsIn(ws) == (done + [f.value]) + FieldsIn(more);
    }
  }

  // Whatever is accepted is a flat object with distinct names, written out.
  lemma Sound(s: string) returns (d: Document)
    requires ReplyOf(s).Some?
    ensures Flat(d) && s == Write(d) && ReplyOf(s).value == FieldsIn(d.ws)
  {
    hide FieldsOf, WriteFields, WellWritten, Skip;
    var lead := Skipped(s);
    var open := Skip(s);
    assert open == "{" + open[1..];
    var blanks := Skipped(open[1..]);
    var ws, trail := FieldsWritten(Skip(open[1..]), []);
    assert [] + FieldsIn(ws) == FieldsIn(ws);
    d := Document(lead, blanks, ws, trail);
  }
}
