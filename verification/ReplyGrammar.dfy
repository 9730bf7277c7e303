// The replies of the plugin: one flat JSON object (RFC 8259), without escapes.
module ReplyGrammar {
  import opened Options
  import opened Decimals

  datatype Scalar = Boolean(truth: bool) | Numeric(number: nat) | Quoted(text: string)

  datatype Field = Field(name: string, value: Scalar)

  const NAME_CAP: nat := 64
  const VALUE_CAP: nat := 512

  predicate Blank(c: char) { c == ' ' || c == '\t' || c == '\r' || c == '\n' }

  predicate Digit(c: char) { '0' <= c <= '9' }

  // A character a string may hold; neither quotes nor backslashes nor controls.
  predicate Plain(c: char) { ' ' <= c <= '~' && c != '\\' && c != '"' }

  // ---- What is left after reading a part from the front ----

  function Skip(s: string): string {
    if s != "" && Blank(s[0]) then Skip(s[1..]) else s
  }

  datatype Read<T> = Stop | Next(value: T, rest: string)

  // The content of a string of fewer than cap characters, up to its closing quote.
  function Content(s: string, done: string, cap: nat): Read<string> {
    if s == "" then Stop
    else if s[0] == '"' then Next(done, s[1..])
    else if !Plain(s[0]) || |done| + 1 >= cap then Stop
    else Content(s[1..], done + [s[0]], cap)
  }

  function StringOf(s: string, cap: nat): Read<string> {
    if s == "" || s[0] != '"' then Stop else Content(s[1..], "", cap)
  }

  function DigitsOf(s: string, done: string): Read<string> {
    if s != "" && Digit(s[0]) then DigitsOf(s[1..], done + [s[0]]) else Next(done, s)
  }

  predicate Canonical(digits: string) {
    Digital(digits) && digits != "" && (|digits| > 1 ==> digits[0] != '0') && Decimal(digits) <= UINT64_MAX
  }

  function ScalarOf(s: string): Read<Scalar> {
    if "true" <= s then Next(Boolean(true), s[4..])
    else if "false" <= s then Next(Boolean(false), s[5..])
    else if s != "" && Digit(s[0]) then
      var d := DigitsOf(s, "");
      if d.Next? && Canonical(d.value) then Next(Numeric(Decimal(d.value)), d.rest) else Stop
    else
      var q := StringOf(s, VALUE_CAP);
      if q.Next? then Next(Quoted(q.value), q.rest) else Stop
  }

  // The types and ranges of the fields the guardian knows.
  predicate Typed(f: Field) {
    match f.name
    case "ok" => f.value.Boolean?
    case "armed" => f.value.Boolean?
    case "release_acknowledged" => f.value.Boolean?
    case "release_status_v1" => f.value.Boolean?
    case "keys" => f.value.Numeric? && f.value.number <= 248
    case "buttons" => f.value.Numeric? && f.value.number <= 8
    case "rejected" => f.value.Numeric?
    case "error" => f.value.Quoted?
    case _ => true
  }

  function Names(fields: seq<Field>): seq<string> { seq(|fields|, i requires 0 <= i < |fields| => fields[i].name) }

  predicate DistinctNames(fields: seq<Field>) {
    forall i, j :: 0 <= i < j < |fields| ==> fields[i].name != fields[j].name
  }

  predicate Named(fields: seq<Field>, name: string) { exists i :: 0 <= i < |fields| && fields[i].name == name }

  // One field, and the blanks around it.
  function FieldOf(s: string): Read<Field> {
    match StringOf(s, NAME_CAP)
    case Stop => Stop
    case Next(name, rest) =>
      var colon := Skip(rest);
      if colon == "" || colon[0] != ':' then Stop
      else match ScalarOf(Skip(colon[1..]))
        case Stop => Stop
        case Next(value, rest) => if Typed(Field(name, value)) then Next(Field(name, value), Skip(rest)) else Stop
  }

  // The fields from the start of one on, to the end of the reply, after those in done.
  function FieldsOf(s: string, done: seq<Field>): Option<seq<Field>>
    decreases |s|
  {
    FieldShorter(s);
    match FieldOf(s)
    case Stop => None
    case Next(f, rest) =>
      if Named(done, f.name) || rest == "" then None
      else if rest[0] == '}' then if Skip(rest[1..]) == "" then Some(done + [f]) else None
      else if rest[0] != ',' then None
      else SkipShorter(rest[1..]); FieldsOf(Skip(rest[1..]), done + [f])
  }

  // A whole reply. It must at least say whether the request succeeded.
  function ReplyOf(s: string): Option<seq<Field>> {
    var open := Skip(s);
    if open == "" || open[0] != '{' then None
    else
      var first := Skip(open[1..]);
      if first != "" && first[0] == '}' then None
      else match FieldsOf(first, [])
        case None => None
        case Some(fields) => if Named(fields, "ok") then Some(fields) else None
  }

  lemma {:induction false} SkipShorter(s: string)
    ensures |Skip(s)| <= |s|
  {
    if s != "" && Blank(s[0]) { SkipShorter(s[1..]); }
  }

  lemma {:induction false} ContentShorter(s: string, done: string, cap: nat)
    ensures var r := Content(s, done, cap); r.Next? ==> |r.rest| < |s|
    decreases |s|
  {
    if s != "" && s[0] != '"' && Plain(s[0]) && |done| + 1 < cap { ContentShorter(s[1..], done + [s[0]], cap); }
  }

  lemma {:induction false} DigitsShorter(s: string, done: string)
    ensures var r := DigitsOf(s, done); r.Next? && |r.rest| <= |s|
    decreases |s|
  {
    if s != "" && Digit(s[0]) { DigitsShorter(s[1..], done + [s[0]]); }
  }

  lemma ScalarShorter(s: string)
    ensures var r := ScalarOf(s); r.Next? ==> |r.rest| < |s|
  {
    if s != "" {
      if Digit(s[0]) { DigitsShorter(s[1..], [s[0]]); assert "" + [s[0]] == [s[0]]; }
      if s[0] == '"' { ContentShorter(s[1..], "", VALUE_CAP); }
    }
  }

  // A field takes at least four characters: two quotes, a colon and a digit.
  lemma FieldShorter(s: string)
    ensures var r := FieldOf(s); r.Next? ==> |r.rest| + 4 <= |s|
  {
    var name := StringOf(s, NAME_CAP);
    if name.Next? {
      ContentShorter(s[1..], "", NAME_CAP);
      SkipShorter(name.rest);
      var colon := Skip(name.rest);
      if colon != "" && colon[0] == ':' {
        SkipShorter(colon[1..]);
        var value := ScalarOf(Skip(colon[1..]));
        if value.Next? {
          ScalarShorter(Skip(colon[1..]));
          SkipShorter(value.rest);
        }
      }
    }
  }

  lemma {:induction false} FieldsLength(s: string, done: seq<Field>)
    ensures FieldsOf(s, done).Some? ==> |s| >= 5 && |FieldsOf(s, done).value| <= |done| + |s| / 5
    decreases |s|
  {
    FieldShorter(s);
    var f := FieldOf(s);
    if f.Next? && !Named(done, f.value.name) && f.rest != "" && f.rest[0] == ',' {
      SkipShorter(f.rest[1..]);
      FieldsLength(Skip(f.rest[1..]), done + [f.value]);
    }
  }
}
