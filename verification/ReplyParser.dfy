// parse_reply() and json_string() of guardian.c, over the receive buffer.
module ReplyParser {
  import opened Options
  import opened Decimals
  import opened ReplyGrammar

  const RESPONSE_CAP: nat := 4096
  const MAX_FIELDS: nat := 818          // (RESPONSE_CAP - 2) / 5

  // What the guardian keeps of a reply.
  datatype ScopeReply = ScopeReply(
    ok: Option<bool>, armed: Option<bool>, acknowledged: Option<bool>, status: Option<bool>,
    keys: Option<nat>, buttons: Option<nat>, rejected: Option<nat>, error: Option<string>)

  const BLANK_REPLY: ScopeReply := ScopeReply(None, None, None, None, None, None, None, None)

  function Store(r: ScopeReply, f: Field): ScopeReply {
    match f.value
    case Boolean(truth) =>
      if f.name == "ok" then r.(ok := Some(truth))
      else if f.name == "armed" then r.(armed := Some(truth))
      else if f.name == "release_acknowledged" then r.(acknowledged := Some(truth))
      else if f.name == "release_status_v1" then r.(status := Some(truth))
      else r
    case Numeric(number) =>
      if f.name == "keys" then r.(keys := Some(number))
      else if f.name == "buttons" then r.(buttons := Some(number))
      else if f.name == "rejected" then r.(rejected := Some(number))
      else r
    case Quoted(text) => if f.name == "error" then r.(error := Some(text)) else r
  }

  function Collect(fields: seq<Field>): ScopeReply {
    if fields == [] then BLANK_REPLY else Store(Collect(fields[..|fields| - 1]), fields[|fields| - 1])
  }

  lemma StoreCommutes(r: ScopeReply, f: Field, g: Field)
    requires f.name != g.name
    ensures Store(Store(r, f), g) == Store(Store(r, g), f)
  {}

  // The record holds exactly what the fields say under these names.
  ghost predicate Says(fields: seq<Field>, r: ScopeReply) {
    && Said(fields, "ok", r.ok, b => Boolean(b)) && Said(fields, "armed", r.armed, b => Boolean(b))
    && Said(fields, "release_acknowledged", r.acknowledged, b => Boolean(b))
    && Said(fields, "release_status_v1", r.status, b => Boolean(b))
    && Said(fields, "keys", r.keys, n => Numeric(n)) && Said(fields, "buttons", r.buttons, n => Numeric(n))
    && Said(fields, "rejected", r.rejected, n => Numeric(n)) && Said(fields, "error", r.error, t => Quoted(t))
  }

  ghost predicate Said<T(!new)>(fields: seq<Field>, name: string, held: Option<T>, scalar: T -> Scalar) {
    forall v: T :: held == Some(v) <==> Field(name, scalar(v)) in fields
  }

  // f is the only field of its name, and it was stored here if it belongs here.
  ghost predicate Taken<T(!new)>(f: Field, name: string, held: Option<T>, held': Option<T>, scalar: T -> Scalar) {
    if f.name != name then held' == held
    else (forall v: T :: f.value == scalar(v) ==> held' == Some(v))
         && (held' == held || exists v: T :: f.value == scalar(v))
  }

  ghost predicate Newly(before: seq<Field>, name: string) { forall g <- before :: g.name != name }

  lemma SaidMore<T(!new)>(before: seq<Field>, f: Field, name: string, held: Option<T>, held': Option<T>,
                          scalar: T -> Scalar)
    requires Said(before, name, held, scalar) && Newly(before, f.name) && Taken(f, name, held, held', scalar)
    requires forall v: T, w: T :: scalar(v) == scalar(w) ==> v == w
    ensures Said(before + [f], name, held', scalar)
  {
    forall v: T ensures held' == Some(v) <==> Field(name, scalar(v)) in before + [f] {
      var g := Field(name, scalar(v));
      assert g in before + [f] <==> g in before || f == g;
      if f.name == name { assert held == Some(v) <==> Field(name, scalar(v)) in before; }
    }
  }

  lemma SaysMore(before: seq<Field>, r: ScopeReply, f: Field)
    requires Says(before, r) && Newly(before, f.name)
    ensures Says(before + [f], Store(r, f))
  {
    hide Said, Store;
    SaysMoreTruths(before, r, f);
    SaysMoreOthers(before, r, f);
  }

  lemma SaysMoreTruths(before: seq<Field>, r: ScopeReply, f: Field)
    requires Says(before, r) && Newly(before, f.name)
    ensures var s := Store(r, f);
      && Said(before + [f], "ok", s.ok, b => Boolean(b)) && Said(before + [f], "armed", s.armed, b => Boolean(b))
      && Said(before + [f], "release_acknowledged", s.acknowledged, b => Boolean(b))
      && Said(before + [f], "release_status_v1", s.status, b => Boolean(b))
  {
    hide Said, Newly;
    var s := Store(r, f);
    SaidMore(before, f, "ok", r.ok, s.ok, b => Boolean(b));
    SaidMore(before, f, "armed", r.armed, s.armed, b => Boolean(b));
    SaidMore(before, f, "release_acknowledged", r.acknowledged, s.acknowledged, b => Boolean(b));
    SaidMore(before, f, "release_status_v1", r.status, s.status, b => Boolean(b));
  }

  lemma SaysMoreOthers(before: seq<Field>, r: ScopeReply, f: Field)
    requires Says(before, r) && Newly(before, f.name)
    ensures var s := Store(r, f);
      && Said(before + [f], "keys", s.keys, n => Numeric(n))
      && Said(before + [f], "buttons", s.buttons, n => Numeric(n))
      && Said(before + [f], "rejected", s.rejected, n => Numeric(n))
      && Said(before + [f], "error", s.error, t => Quoted(t))
  {
    hide Said, Newly;
    var s := Store(r, f);
    SaidMore(before, f, "keys", r.keys, s.keys, n => Numeric(n));
    SaidMore(before, f, "buttons", r.buttons, s.buttons, n => Numeric(n));
    SaidMore(before, f, "rejected", r.rejected, s.rejected, n => Numeric(n));
    SaidMore(before, f, "error", r.error, s.error, t => Quoted(t));
  }

  // Names are distinct, so the record agrees with every field of the reply, in whatever order
  // they came: it has a value exactly if a field of that name and kind gives it, and storing any
  // field again changes nothing.
  lemma {:induction false} CollectAgrees(fields: seq<Field>)
    requires DistinctNames(fields)
    ensures Says(fields, Collect(fields))
    ensures forall i :: 0 <= i < |fields| ==> Store(Collect(fields), fields[i]) == Collect(fields)
  {
    hide Store, Says;
    if fields == [] {
      NothingSaid();
    } else {
      var before, f := fields[..|fields| - 1], fields[|fields| - 1];
      CollectAgrees(before);
      forall i | 0 <= i < |before| ensures Store(Collect(fields), before[i]) == Collect(fields) {
        StoreCommutes(Collect(before), f, before[i]);
      }
      StoreTwice(Collect(before), f);
      SaysMore(before, Collect(before), f);
      assert fields == before + [f];
    }
  }

  lemma NothingSaid()
    ensures Says([], BLANK_REPLY)
  {}

  lemma StoreTwice(r: ScopeReply, f: Field)
    ensures Store(Store(r, f), f) == Store(r, f)
  {}

  class Parser {
    const response: array<char>
    var length: nat              // of the reply, up to its terminator
    var p: nat                   // the cursor

    ghost predicate Valid()
      reads this, response
    {
      && p <= length < response.Length == RESPONSE_CAP
      && response[length] == '\0' && forall i :: 0 <= i < length ==> response[i] != '\0'
    }

    ghost function Text(): string
      reads this`length, response
      requires length <= response.Length
    {
      response[..length]
    }

    // What the cursor has not passed yet.
    ghost function Rest(): string
      reads this, response
      requires p <= length <= response.Length
    {
      response[p..length]
    }

    constructor (response: array<char>)
      requires response.Length == RESPONSE_CAP
      ensures this.response == response
    {
      this.response, length, p := response, 0, 0;
    }

    lemma Current()
      requires Valid() && response[p] != '\0'
      ensures p < length && Rest() != "" && Rest()[0] == response[p] && Rest()[1..] == response[p + 1..length]
    {}

    // whitespace()
    method Whitespace()
      requires Valid()
      modifies this`p
      ensures Valid() && Rest() == Skip(old(Rest())) && p >= old(p)
    {
      while Blank(response[p])
        invariant Valid() && Skip(Rest()) == Skip(old(Rest())) && p >= old(p)
        decreases length - p
      {
        Current();
        p := p + 1;
      }
      if p < length { assert Rest()[0] == response[p]; }
    }

    // Takes the next character if it is the one expected.
    method Expect(c: char) returns (ok: bool)
      requires Valid() && c != '\0'
      modifies this`p
      ensures Valid() && ok == (old(Rest()) != "" && old(Rest())[0] == c)
      ensures p == old(p) + (if ok then 1 else 0) && (ok ==> Rest() == old(Rest())[1..])
    {
      ok := response[p] == c;
      if ok { p := p + 1; }
    }

    // json_string(): at most cap - 1 characters, which it copies out.
    method JsonString(cap: nat) returns (out: Option<string>)
      requires Valid() && cap > 0
      modifies this`p
      ensures Valid()
      ensures out.None? <==> StringOf(old(Rest()), cap).Stop?
      ensures out.Some? ==>
        && StringOf(old(Rest()), cap) == Next(out.value, Rest())
        && p == old(p) + |out.value| + 2 && response[old(p) + 1..p - 1] == out.value && response[p - 1] == '"'
        && '"' !in out.value
    {
      out := None;
      var quoted := Expect('"');
      if !quoted {
        return;
      }
      ghost var content := Rest();
      var text: string := "";
      while response[p] != '\0' && response[p] != '"'
        invariant Valid() && Content(content, "", cap) == Content(Rest(), text, cap)
        invariant p == old(p) + 1 + |text| && response[old(p) + 1..p] == text && '"' !in text
        decreases length - p
      {
        Current();
        var ch := response[p];
        p := p + 1;
        if ch < ' ' || ch > '~' || ch == '\\' || |text| + 1 >= cap {
          return;
        }
        text := text + [ch];
      }
      if response[p] != '"' {
        return;
      }
      Current();
      p := p + 1;
      out := Some(text);
    }

    // strncmp() with a literal: never reads past the terminator.
    method StartsWith(word: string) returns (r: bool)
      requires Valid() && '\0' !in word
      ensures r == (word <= Rest())
    {
      var i := 0;
      while i < |word|
        invariant 0 <= i <= |word| && p + i <= length && word[..i] == response[p..p + i]
      {
        if response[p + i] != word[i] {
          Differs(word, Rest(), i);
          return false;
        }
        assert word[i] in word;
        i := i + 1;
      }
      assert word[..i] == word && Rest()[..i] == response[p..p + i];
      r := true;
    }

    static lemma Differs(word: string, rest: string, i: nat)
      requires i < |word| && (i < |rest| ==> rest[i] != word[i])
      ensures !(word <= rest)
    {}

    // A number in 64 bits, without leading zeros.
    method ParseNumber() returns (r: Option<nat>)
      requires Valid() && Rest() != "" && Digit(Rest()[0])
      modifies this`p
      ensures Valid()
      ensures var d := DigitsOf(old(Rest()), "");
        && d.Next?
        && (r.None? <==> !Canonical(d.value))
        && (r.Some? ==> r.value == Decimal(d.value) && Rest() == d.rest)
    {
      hide Canonical;
      var first := p;
      var number;
      ghost var digits;
      number, digits := ParseDigits();
      if number.None? {
        return None;
      }
      WhenCanonical(digits);
      if response[first] == '0' && p - first > 1 {
        return None;
      }
      r := number;
    }

    // The run of digits, unless it is too large.
    method ParseDigits() returns (r: Option<nat>, ghost digits: string)
      requires Valid() && Rest() != "" && Digit(Rest()[0])
      modifies this`p
      ensures Valid() && digits != "" && Digital(digits) && old(p) <= p
      ensures r.None? ==> DigitsOf(old(Rest()), "").Next? && !Canonical(DigitsOf(old(Rest()), "").value)
      ensures r.Some? ==>
        && DigitsOf(old(Rest()), "") == Next(digits, Rest()) && r.value == Decimal(digits) <= UINT64_MAX
        && |digits| == p - old(p) && digits[0] == response[old(p)]
    {
      hide Canonical, Decimal;
      NoDigits();
      ghost var all := Rest();
      var first, number := p, 0;
      digits := "";
      while Digit(response[p])
        invariant Valid() && first <= p && DigitsOf(all, "") == DigitsOf(Rest(), digits)
        invariant |digits| == p - first && Digital(digits) && number == Decimal(digits) <= UINT64_MAX
        invariant p == first ==> Digit(response[p])
        invariant p > first ==> digits[0] == response[first]
        decreases length - p
      {
        Current();
        var d := response[p] as nat - '0' as nat;
        OneMoreDigit(digits, response[p]);
        digits := digits + [response[p]];
        p := p + 1;
        if number > (UINT64_MAX - d) / 10 {
          TooLarge(Rest(), digits);
          return None, digits;
        }
        number := number * 10 + d;
      }
      if p < length { assert Rest()[0] == response[p]; }
      r := Some(number);
    }

    static lemma NoDigits()
      ensures Decimal("") == 0
    {}

    static lemma OneMoreDigit(digits: string, c: char)
      requires Digital(digits) && Digit(c)
      ensures Digital(digits + [c]) && Decimal(digits + [c]) == 10 * Decimal(digits) + (c as nat - '0' as nat)
    {
      assert (digits + [c])[..|digits|] == digits;
    }

    static lemma WhenCanonical(digits: string)
      requires Digital(digits) && digits != "" && Decimal(digits) <= UINT64_MAX
      ensures Canonical(digits) <==> !(digits[0] == '0' && |digits| > 1)
    {}

    // More digits only make a number larger.
    static lemma {:induction false} TooLarge(s: string, digits: string)
      requires Digital(digits) && Decimal(digits) > UINT64_MAX
      ensures var d := DigitsOf(s, digits); d.Next? && !Canonical(d.value)
      decreases |s|
    {
      if s != "" && Digit(s[0]) {
        var more := digits + [s[0]];
        assert more[..|digits|] == digits;
        DecimalGrows(more, |digits|);
        TooLarge(s[1..], more);
      }
    }

    method ParseScalar() returns (r: Option<Scalar>)
      requires Valid()
      modifies this`p
      ensures Valid() && (r.Some? ==> p >= old(p))
      ensures if r.None? then ScalarOf(old(Rest())).Stop? else ScalarOf(old(Rest())) == Next(r.value, Rest())
    {
      hide DigitsOf, StringOf;
      ScalarShorter(Rest());
      r := None;
      if p < length { assert Rest()[0] == response[p]; }
      var t := StartsWith("true");
      if t {
        p := p + 4;
        return Some(Boolean(true));
      }
      var f := StartsWith("false");
      if f {
        p := p + 5;
        return Some(Boolean(false));
      }
      if Digit(response[p]) {
        var number := ParseNumber();
        if number.Some? { r := Some(Numeric(number.value)); }
      } else {
        var text := JsonString(VALUE_CAP);
        if text.Some? { r := Some(Quoted(text.value)); }
      }
    }

    // The names read so far, by where they start in the reply.
    ghost predicate Indexed(seen: array<nat>, names: seq<string>)
      reads this`p, response, seen
    {
      && |names| <= seen.Length
      && forall i :: 0 <= i < |names| ==> '"' !in names[i] && At(names[i], seen[i]) && seen[i] + |names[i]| < p
    }

    // A name and its closing quote stand at this place.
    ghost predicate At(name: string, at: nat)
      reads response
    {
      at + |name| < response.Length && response[at..at + |name|] == name && response[at + |name|] == '"'
    }

    lemma Letter(name: string, at: nat, k: nat)
      requires At(name, at) && k < |name|
      ensures response[at + k] == name[k]
    {}

    lemma SameName(a: string, b: string, at: nat)
      requires At(a, at) && At(b, at) && '"' !in a && '"' !in b
      ensures a == b
    {
      if |a| < |b| { Letter(b, at, |a|); }
      if |b| < |a| { Letter(a, at, |b|); }
    }

    // The duplicate test compares offsets and quotes; it agrees with comparing names. Every
    // byte it looks at lies before the end of the name just read.
    method Repeated(seen: array<nat>, count: nat, name: string, start: nat, ghost names: seq<string>) returns (r: bool)
      requires Valid() && count == |names| && Indexed(seen, names) && '"' !in name
      requires At(name, start) && start + |name| < p && forall i :: 0 <= i < count ==> seen[i] < start
      ensures r == (name in names)
    {
      var i := 0;
      while i < count
        invariant 0 <= i <= count && name !in names[..i]
      {
        assert seen[i] + |name| < p <= length;
        if response[seen[i]..seen[i] + |name|] == name && response[seen[i] + |name|] == '"' {
          SameName(name, names[i], seen[i]);
          return true;
        }
        i := i + 1;
      }
      r := false;
    }

    // A field's name, new and entered in the table.
    method ParseName(seen: array<nat>, count: nat, ghost names: seq<string>) returns (name: Option<string>)
      requires Valid() && seen.Length == MAX_FIELDS && count == |names| < MAX_FIELDS && Indexed(seen, names)
      modifies this`p, seen
      ensures Valid()
      ensures name.None? <==> StringOf(old(Rest()), NAME_CAP).Stop? || StringOf(old(Rest()), NAME_CAP).value in names
      ensures name.Some? ==>
        StringOf(old(Rest()), NAME_CAP) == Next(name.value, Rest()) && Indexed(seen, names + [name.value])
    {
      hide StringOf;
      var start := p + 1;
      name := JsonString(NAME_CAP);
      if name.None? {
        return;
      }
      var repeated := Repeated(seen, count, name.value, start, names);
      if repeated {
        return None;
      }
      seen[count] := start;
    }

    // The rest of a field: the colon, and the value.
    method ParseValue() returns (value: Option<Scalar>)
      requires Valid()
      modifies this`p
      ensures Valid() && (value.Some? ==> p >= old(p))
      ensures var colon := Skip(old(Rest()));
        if colon == "" || colon[0] != ':' then value.None?
        else var v := ScalarOf(Skip(colon[1..]));
             if v.Stop? then value.None? else value == Some(v.value) && Rest() == Skip(v.rest)
    {
      hide ScalarOf, Skip;
      value := None;
      Whitespace();
      var colon := Expect(':');
      if !colon {
        return;
      }
      Whitespace();
      value := ParseScalar();
      if value.Some? { Whitespace(); }
    }

    method ParseField(seen: array<nat>, count: nat, ghost done: seq<Field>) returns (f: Option<Field>)
      requires Valid() && seen.Length == MAX_FIELDS && count == |done| < MAX_FIELDS && Indexed(seen, Names(done))
      modifies this`p, seen
      ensures Valid()
      ensures f.None? <==> FieldOf(old(Rest())).Stop? || Named(done, FieldOf(old(Rest())).value.name)
      ensures f.Some? ==> FieldOf(old(Rest())) == Next(f.value, Rest()) && Indexed(seen, Names(done + [f.value]))
    {
      hide StringOf, ScalarOf, Skip, Typed, At;
      f := None;
      var name := ParseName(seen, count, Names(done));
      NamesOf(done);
      if name.None? {
        return;
      }
      var value := ParseValue();
      if value.None? || !Typed(Field(name.value, value.value)) {
        return;
      }
      f := Some(Field(name.value, value.value));
      assert Names(done + [f.value]) == Names(done) + [name.value];
    }

    static lemma NamesOf(done: seq<Field>)
      ensures forall name :: Named(done, name) <==> name in Names(done)
    {
      forall i | 0 <= i < |done| ensures Names(done)[i] == done[i].name {}
    }

    // What follows a field decides how the list goes on.
    static lemma AfterField(s: string, done: seq<Field>)
      ensures FieldOf(s).Stop? || Named(done, FieldOf(s).value.name) ==> FieldsOf(s, done).None?
      ensures FieldOf(s).Next? && !Named(done, FieldOf(s).value.name) ==>
        var f, rest := FieldOf(s).value, FieldOf(s).rest;
        && |rest| + 4 <= |s| && Typed(f)
        && (rest == "" || (rest[0] != '}' && rest[0] != ',') ==> FieldsOf(s, done).None?)
        && (rest != "" && rest[0] == '}' ==> FieldsOf(s, done) == Closed(rest, done + [f]))
        && (rest != "" && rest[0] == ',' ==> FieldsOf(s, done) == FieldsOf(Skip(rest[1..]), done + [f]))
        && |Skip(if rest == "" then "" else rest[1..])| <= |rest|
    {
      FieldShorter(s);
      var r := FieldOf(s);
      if r.Next? && r.rest != "" { SkipShorter(r.rest[1..]); }
    }

    static function Closed(rest: string, fields: seq<Field>): Option<seq<Field>> {
      if rest != "" && rest[0] == '}' && Skip(rest[1..]) == "" then Some(fields) else None
    }

    static predicate Unambiguous(fields: seq<Field>) {
      DistinctNames(fields) && forall i :: 0 <= i < |fields| ==> Typed(fields[i])
    }

    static lemma UnambiguousSnoc(fields: seq<Field>, f: Field)
      requires Unambiguous(fields) && Typed(f) && !Named(fields, f.name)
      ensures Unambiguous(fields + [f]) && Collect(fields + [f]) == Store(Collect(fields), f)
    {
      assert (fields + [f])[..|fields|] == fields;
    }

    static lemma OkIsNamed(fields: seq<Field>)
      requires Unambiguous(fields)
      ensures Collect(fields).ok.Some? <==> Named(fields, "ok")
    {
      hide Collect;
      CollectAgrees(fields);
    }

    // The loop over the fields, from the first one on. The table never runs out: a list with
    // more names than it holds does not fit the buffer.
    method ParseFields() returns (r: Option<seq<Field>>, reply: ScopeReply)
      requires Valid() && p >= 1
      modifies this`p
      ensures Valid()
      ensures r == FieldsOf(old(Rest()), [])
      ensures r.Some? ==> reply == Collect(r.value) && Unambiguous(r.value)
    {
      hide FieldOf, Skip, Store, FieldsOf, Collect, Typed, Unambiguous;
      ghost var s := Rest();
      var seen := new nat[MAX_FIELDS];
      var fields, more := [], true;
      reply, r := BLANK_REPLY, None;
      NoFields();
      while more
        invariant Valid() && |fields| <= MAX_FIELDS && seen.Length == MAX_FIELDS && fresh(seen)
          && Indexed(seen, Names(fields))
        invariant p >= 1 + 5 * |fields| - (if more then 0 else 1) && reply == Collect(fields) && Unambiguous(fields)
        invariant FieldsOf(s, []) == if more then FieldsOf(Rest(), fields) else Closed(Rest(), fields)
        decreases length - p, more
      {
        if |fields| == MAX_FIELDS {
          FieldsLength(Rest(), fields);     // fewer than five characters are left
          return;
        }
        AfterField(Rest(), fields);
        var f := ParseField(seen, |fields|, fields);
        if f.None? {
          return;
        }
        UnambiguousSnoc(fields, f.value);
        reply, fields := Store(reply, f.value), fields + [f.value];
        if p < length && response[p] == '}' {
          more := false;
        } else {
          var comma := Expect(',');
          if !comma {
            return;
          }
          Whitespace();
        }
      }
      r := ParseClose(fields);
    }

    method ParseClose(fields: seq<Field>) returns (r: Option<seq<Field>>)
      requires Valid()
      modifies this`p
      ensures Valid() && r == Closed(old(Rest()), fields)
    {
      hide Skip;
      r := None;
      var brace := Expect('}');
      if !brace {
        return;
      }
      Whitespace();
      if response[p] == '\0' {
        assert p == length;
        r := Some(fields);
      }
    }

    static lemma NoFields()
      ensures Collect([]) == BLANK_REPLY && Unambiguous([])
    {}

    // parse_reply(). A buffer without a terminator is refused; a reply is accepted exactly if it
    // is one, and the record then holds its fields.
    method ParseReply() returns (r: Option<ScopeReply>, ghost fields: seq<Field>)
      requires response.Length == 4096
      modifies this
      ensures length <= 4096 && forall i :: 0 <= i < length ==> response[i] != '\0'
      ensures length == 4096 ==> r.None?
      ensures length < 4096 ==> response[length] == '\0'
      ensures length < 4096 && r.None? ==> ReplyOf(Text()).None?
      ensures r.Some? ==> length < 4096 && ReplyOf(Text()) == Some(fields) && r.value == Collect(fields)
    {
      hide Skip, FieldsOf, Collect;
      fields, r := [], None;
      length, p := 0, 0;
      while length < RESPONSE_CAP && response[length] != '\0'
        invariant length <= RESPONSE_CAP && p == 0 && forall i :: 0 <= i < length ==> response[i] != '\0'
      {
        length := length + 1;
      }
      if length == RESPONSE_CAP {
        return;
      }
      assert Rest() == Text();
      Whitespace();
      var brace := Expect('{');
      if !brace {
        return;
      }
      Whitespace();
      if response[p] == '}' {
        Current();
        return;                        // an empty object says nothing about success
      }
      if p < length { Current(); }
      r, fields := Finish();
    }

    method Finish() returns (r: Option<ScopeReply>, ghost fields: seq<Field>)
      requires Valid() && p >= 1
      modifies this`p
      ensures if r.Some? then FieldsOf(old(Rest()), []) == Some(fields) && Named(fields, "ok")
        && r.value == Collect(fields)
              else FieldsOf(old(Rest()), []).None? || !Named(FieldsOf(old(Rest()), []).value, "ok")
    {
      hide FieldsOf, Collect, Unambiguous;
      fields := [];
      var all, reply := ParseFields();
      r := None;
      if all.Some? {
        OkIsNamed(all.value);
        fields := all.value;
        if reply.ok.Some? { r := Some(reply); }
      }
    }
  }
}
