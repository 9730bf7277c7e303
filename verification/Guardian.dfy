// The process that performs a plan: its ledgers of what it pressed, and the stepper.
module Guardians {
  import opened Options
  import opened Words
  import opened Keymaps
  import opened Gestures
  import opened Grammar
  import opened Planner

  // An event put on the Wayland connection: when its group was due, when its lease was checked,
  // and the scope deadline it was checked against.
  datatype Sent = Sent(event: Event, dueUs: nat, checkedUs: nat, deadlineUs: nat)

  function Wire(sent: seq<Sent>): (es: seq<Event>)
    ensures |es| == |sent|
  {
    seq(|sent|, i requires 0 <= i < |sent| => sent[i].event)
  }

  // What a plan puts on the wire: everything but its gates.
  function Inputs(es: seq<Event>): seq<Event> {
    if es == [] then []
    else var before := Inputs(es[..|es| - 1]);
         if es[|es| - 1].what.Gate? then before else before + [es[|es| - 1]]
  }

  function Gates(es: seq<Event>): nat {
    if es == [] then 0 else Gates(es[..|es| - 1]) + if es[|es| - 1].what.Gate? then 1 else 0
  }

  // Gates hold nothing, so a plan without them plays as the plan does.
  lemma {:induction false} InputsPlay(held: set<Pressed>, es: seq<Event>)
    ensures Play(held, Inputs(es)) == Play(held, es)
    decreases |es|
  {
    if es != [] {
      var before, last := es[..|es| - 1], es[|es| - 1];
      InputsPlay(held, before);
      assert es == before + [last];
      PlayConcat(held, before, [last]);
      PlayConcat(held, Inputs(before), [last]);
      if last.what.Gate? && Play(held, before).Some? { StillKeeps(Play(held, before).value, [last]); }
    }
  }

  predicate Sendable(e: Event) {
    match e.what
    case Key(k, _) => 1 <= k <= 247
    case Button(b, _) => 272 <= b <= 279
    case _ => true
  }

  predicate AllSendable(es: seq<Event>) { forall i :: 0 <= i < |es| ==> Sendable(es[i]) }

  lemma SendableConcat(a: seq<Event>, b: seq<Event>)
    requires AllSendable(a) && AllSendable(b)
    ensures AllSendable(a + b)
  {}

  lemma KeysSendable(keys: seq<nat>, at: nat)
    requires forall k <- keys :: 1 <= k <= 247
    ensures AllSendable(Downs(keys, at)) && AllSendable(Ups(keys, at)) && AllSendable(ChordEvents(keys, at))
  {
    forall i | 0 <= i < |keys| ensures Sendable(Downs(keys, at)[i]) && Sendable(Ups(keys, at)[i]) {
      assert keys[i] in keys && keys[|keys| - 1 - i] in keys;
    }
    SendableConcat(Downs(keys, at), Ups(keys, at));
  }

  lemma {:induction false} TextSendable(m: Keymap, cps: seq<nat>, gates: bool, at: nat)
    requires Typable(m, cps)
    ensures AllSendable(TextEvents(m, cps, gates, at))
    decreases |cps|
  {
    hide AllSendable, Keystroke, ChordEvents;
    if cps == [] {
      NoneSendable();
    } else {
      var before, cp := cps[..|cps| - 1], cps[|cps| - 1];
      var c := Keystroke(m, Character(cp), []).value;
      TextSendable(m, before, gates, at);
      KeysSendable(c, at);
      NoneSendable();
      OneSendable(Event(Gate, at));
      SendableConcat(if gates then [Event(Gate, at)] else [], ChordEvents(c, at));
      SendableConcat(TextEvents(m, before, gates, at), CharacterEvents(m, cp, gates, at));
    }
  }

  lemma NoneSendable()
    ensures AllSendable([])
  {}

  lemma OneSendable(e: Event)
    requires Sendable(e)
    ensures AllSendable([e])
  {}

  lemma {:induction false} ClicksSendable(button: nat, count: nat)
    requires count >= 1 && 272 <= button <= 279
    ensures AllSendable(ClickEvents(button, count))
  {
    if count > 1 { ClicksSendable(button, count - 1); }
  }

  lemma StillSendable(es: seq<Event>)
    requires Still(es)
    ensures AllSendable(es)
  {
    forall i | 0 <= i < |es| ensures Sendable(es[i]) {
      assert es[i] in es;
    }
  }

  lemma PointerSendable(m: Keymap, g: Gesture)
    requires Performable(m, g) && (g.Drag? || g.Clicks?)
    ensures AllSendable(Events(m, g))
  {
    hide AllSendable, Sendable, Downs, Ups;
    var first := Event(Move(if g.Drag? then g.start else g.p), 0);
    var down, up := Event(Button(g.button, true), 0), Event(Button(g.button, false), Finish(g));
    var mid := if g.Drag? then PathEvents(g.path, g.ms) else ClickEvents(g.button, g.count);
    if g.Drag? { StillSendable(mid); } else { ClicksSendable(g.button, g.count); }
    KeysSendable(g.mods, 0);
    KeysSendable(g.mods, Finish(g));
    PressSendable(first, down);
    PressSendable(first, up);
    SendableConcat([first], Downs(g.mods, 0));
    SendableConcat([first] + Downs(g.mods, 0), [down]);
    SendableConcat([first] + Downs(g.mods, 0) + [down], mid);
    SendableConcat([first] + Downs(g.mods, 0) + [down] + mid, [up]);
    SendableConcat([first] + Downs(g.mods, 0) + [down] + mid + [up], Ups(g.mods, Finish(g)));
  }

  lemma PressSendable(move: Event, press: Event)
    requires move.what.Move? && press.what.Button? && 272 <= press.what.button <= 279
    ensures AllSendable([move]) && AllSendable([press])
  {}

  lemma WheelSendable(m: Keymap, g: Gesture)
    requires Performable(m, g) && g.Wheel?
    ensures AllSendable(Events(m, g))
  {
    hide AllSendable;
    var first := Event(Move(g.p), 0);
    var notches := WheelEvents(g.axis, g.sign, g.count);
    StillSendable(notches);
    StillSendable([first]);
    KeysSendable(g.mods, 0);
    KeysSendable(g.mods, Finish(g));
    SendableConcat([first], Downs(g.mods, 0));
    SendableConcat([first] + Downs(g.mods, 0), notches);
    SendableConcat([first] + Downs(g.mods, 0) + notches, Ups(g.mods, Finish(g)));
  }

  lemma ReplaceSendable(m: Keymap, g: Gesture)
    requires Performable(m, g) && g.Replace?
    ensures AllSendable(Events(m, g))
  {
    hide AllSendable, TextEvents;
    ClickIntoSendable(g.p);
    GatedSendable(g.select);
    match g.fill {
      case Erasing(keys) => GatedSendable(keys);
      case Typing(cps) => TextSendable(m, cps, true, SETTLE_US);
    }
    SendableConcat(ClickInto(g.p), GatedChord(g.select));
    SendableConcat(ClickInto(g.p) + GatedChord(g.select), FillEvents(m, g.fill));
  }

  lemma ClickIntoSendable(p: Point)
    ensures AllSendable(ClickInto(p))
  {}

  lemma GatedSendable(keys: seq<nat>)
    requires ChordOk(keys)
    ensures AllSendable(GatedChord(keys))
  {
    KeysSendable(keys, SETTLE_US);
    SendableConcat([Event(Gate, SETTLE_US)], ChordEvents(keys, SETTLE_US));
  }

  // A plan presses only what a seat has.
  lemma PlanSendable(m: Keymap, g: Gesture)
    requires Performable(m, g)
    ensures AllSendable(Events(m, g))
  {
    match g {
      case MoveTo(_) =>
      case Drag(_, _, _, _, _) => PointerSendable(m, g);
      case Clicks(_, _, _, _) => PointerSendable(m, g);
      case Wheel(_, _, _, _, _) => WheelSendable(m, g);
      case Chord(keys) => KeysSendable(keys, 0);
      case Type(cps) => TextSendable(m, cps, false, 0);
      case Replace(_, _, _) => ReplaceSendable(m, g);
    }
  }

  const GROUP: nat := 32

  const SEAT: set<Pressed> := (set k: nat | 0 <= k < 248 :: PressedKey(k))
    + (set b: nat | 272 <= b < 280 :: PressedButton(b))

  lemma SeatHas(k: nat, b: nat)
    requires k < 248 && 272 <= b < 280
    ensures PressedKey(k) in SEAT && PressedButton(b) in SEAT
  {}

  class Guardian {
    const table: Plan
    const keys: array<bool>
    const buttons: array<bool>
    var modifiers: bool
    var sent: seq<Sent>      // (record of the model) everything put on the wire
    ghost var base: nat      // how much was on the wire when the action started

    var now: nat
    var failed: bool         // a terminal reason is set
    var begun: bool
    var action: bool
    var lease: nat
    var scopeDeadline: nat
    var start: nat
    var index: nat
    var gateWaiting: bool
    var gateAllowed: bool
    var gateSerial: nat
    ghost var permits: nat   // of this action

    predicate Down(p: Pressed)
      reads keys, buttons
      requires keys.Length == 248 && buttons.Length == 8
    {
      match p
      case PressedKey(k) => k < 248 && keys[k]
      case PressedButton(b) => 272 <= b < 280 && buttons[b - 272]
    }

    // What the guardian believes it holds.
    ghost function Ledger(): set<Pressed>
      reads keys, buttons
      requires keys.Length == 248 && buttons.Length == 8
    {
      set p <- SEAT | Down(p)
    }

    lemma InLedger()
      requires keys.Length == 248 && buttons.Length == 8
      ensures forall p :: p in Ledger() <==> Down(p)
    {
      forall p | Down(p) ensures p in SEAT {
        match p {
          case PressedKey(k) => SeatHas(k, 272);
          case PressedButton(b) => SeatHas(0, b);
        }
      }
    }

    ghost function Script(): seq<Event>
      reads table, table.events
      requires table.Valid()
    {
      table.Planned()
    }

    // The ledgers agree with the wire.
    ghost predicate LedgerOk()
      reads this`sent, keys, buttons
    {
      keys.Length == 248 && buttons.Length == 8 && keys != buttons && !keys[0] && Play({}, Wire(sent)) == Some(Ledger())
    }

    // During an action the wire holds exactly the inputs of the part of the plan that was
    // stepped through, each sent when it was due and while the lease stood, and the ledgers
    // hold what that part holds; every gate passed took a permit of its own. Between actions
    // nothing is held.
    ghost predicate ActionOk()
      reads this, keys, buttons, table, table.events
    {
      && table.Valid()
      && LedgerOk()
      && (!action && !failed ==> Ledger() == {})
      && (action && !failed ==>
            && begun && base <= |sent| && index <= table.planned
            && AllSendable(Script()) && Play({}, Script()) == Some({})
            && Play({}, Script()[..index]) == Some(Ledger())
            && Wire(sent[base..]) == Inputs(Script()[..index])
            && InTime(sent[base..])
            && Gates(Script()[..index]) + (if gateAllowed then 1 else 0) == permits)
    }

    ghost predicate InTime(sent: seq<Sent>)
      reads this`start, this`lease
    {
      forall i :: 0 <= i < |sent| ==>
        start + sent[i].event.at <= sent[i].dueUs <= sent[i].checkedUs < lease && sent[i].checkedUs < sent[i].deadlineUs
    }

    constructor (table: Plan)
      requires table.Valid()
      ensures ActionOk() && this.table == table && !action && !failed && sent == [] && Ledger() == {}
      ensures fresh(keys) && fresh(buttons)
    {
      this.table := table;
      keys := new bool[248](_ => false);
      buttons := new bool[8](_ => false);
      modifiers, sent, base, now, failed, begun, action := false, [], 0, 0, false, false, false;
      lease, scopeDeadline, start, index, gateWaiting, gateAllowed, gateSerial, permits := 0, 0, 0, 0, false, false,
        0, 0;
      new;
      InLedger();
      assert Ledger() == {} && Wire([]) == [];
    }

    static lemma Appended(sent: seq<Sent>, s: Sent, held: set<Pressed>)
      requires Play({}, Wire(sent)) == Some(held)
      ensures Wire(sent + [s]) == Wire(sent) + [s.event]
      ensures Play({}, Wire(sent + [s])) == PlayOne(held, s.event)
    {
      assert Wire(sent + [s]) == Wire(sent) + [s.event];
      PlayConcat({}, Wire(sent), [s.event]);
      var h := PlayOne(held, s.event);
      if h.Some? { assert Play(h.value, [s.event][1..]) == h; }
    }

    // key(): the ledger entry, and the event on the wire. The modifier state is what the
    // keymap makes of it.
    method Press(k: nat, down: bool, s: Sent)
      requires LedgerOk() && 1 <= k < 248 && s.event.what == Key(k, down) && keys[k] != down
      modifies this`sent, this`modifiers, keys
      ensures LedgerOk() && sent == old(sent) + [s]
      ensures keys[..] == old(keys[..])[k := down]
      ensures Ledger() == if down then old(Ledger()) + {PressedKey(k)} else old(Ledger()) - {PressedKey(k)}
    {
      Appended(sent, s, Ledger());
      InLedger();
      ghost var held := Ledger();
      keys[k] := down;
      InLedger();
      assert Ledger() == if down then held + {PressedKey(k)} else held - {PressedKey(k)};
      sent := sent + [s];
      modifiers := *;
    }

    // button()
    method Click(b: nat, down: bool, s: Sent)
      requires LedgerOk() && 272 <= b <= 279 && s.event.what == Button(b, down) && buttons[b - 272] != down
      modifies this`sent, buttons
      ensures LedgerOk() && sent == old(sent) + [s]
      ensures buttons[..] == old(buttons[..])[b - 272 := down]
      ensures Ledger() == if down then old(Ledger()) + {PressedButton(b)} else old(Ledger()) - {PressedButton(b)}
    {
      Appended(sent, s, Ledger());
      InLedger();
      ghost var held := Ledger();
      buttons[b - 272] := down;
      InLedger();
      assert Ledger() == if down then held + {PressedButton(b)} else held - {PressedButton(b)};
      sent := sent + [s];
    }

    // The B command: a lease of its own for one action, from before the plugin was asked for a scope
    // on, once that was granted.
    method Begin(ms: nat, deadlineUs: nat, start: nat, granted: bool) returns (ok: bool)
      requires ActionOk() && !action && !failed && start <= now
      modifies this`lease, this`scopeDeadline, this`begun, table`planned
      ensures ActionOk()
      ensures ok <==> !old(begun) && 1 <= ms <= 2000 && 1 <= deadlineUs < TWO64 && granted
      ensures ok ==> begun && lease == start + ms * 1000 && scopeDeadline == deadlineUs && table.planned == 0
      ensures !ok ==> begun == old(begun) && lease == old(lease) && scopeDeadline == old(scopeDeadline)
    {
      hide Play, LedgerOk;
      ok := false;
      if begun || ms < 1 || ms > 2000 || deadlineUs < 1 || deadlineUs >= TWO64 {
        return;
      }
      table.planned := 0;
      if !granted {
        return;
      }
      lease, scopeDeadline, begun, ok := start + ms * 1000, deadlineUs, true, true;
    }

    // A terminal reason.
    method Fail()
      requires ActionOk()
      modifies this`failed
      ensures ActionOk() && failed
    {
      hide Play, LedgerOk;
      failed := true;
    }

    // The end of an action: its plan is used up, and the cleanup was acknowledged or not.
    method Complete(acknowledged: bool)
      requires ActionOk() && action && !failed && index == table.planned
      modifies this`action, this`begun, this`lease, this`scopeDeadline, this`failed
      ensures ActionOk() && Ledger() == {} && failed == !acknowledged
      ensures if acknowledged then !action && !begun && lease == 0 && scopeDeadline == 0
        else action && begun == old(begun)
    {
      UsedUp();
      if acknowledged {
        action, begun, lease, scopeDeadline := false, false, 0, 0;
      } else {
        failed := true;
      }
    }

    // A refused line: the lease is given up, once the cleanup was acknowledged.
    method Reject(acknowledged: bool)
      requires ActionOk() && begun && !action && !failed
      modifies this`begun, this`failed
      ensures ActionOk() && Ledger() == {} && failed == begun == !acknowledged
    {
      hide Play, LedgerOk;
      if acknowledged {
        begun := false;
      } else {
        failed := true;
      }
    }

    // The start of an action: the line is planned, and if it is accepted its steps begin.
    method Perform(line: string) returns (ok: bool, ghost g: Option<Gesture>)
      requires ActionOk() && !action && !failed
      modifies this`action, this`gateWaiting, this`gateAllowed, this`start, this`index, this`base, this`permits,
               table, table.events
      ensures ActionOk() && !failed && ok == action
      ensures ok <==> begun && Accepted(table.screen, line, now, lease)
      ensures ok ==> g == Meaning(table.screen, line) && g.Some? && begun && index == 0
      ensures ok ==> Performable(table.screen.keymap, g.value) && Script() == Events(table.screen.keymap, g.value)
    {
      hide Meaning, Events, Performable, Play, Finish, Inputs, Gates, Accepted, LedgerOk, Ledger, InTime, AllSendable;
      ok, g := false, None;
      if !begun {
        return;
      }
      index := 0;
      ok, g := table.Fill(line, now, lease);
      if ok {
        Start(g.value);
      }
    }

    // The steps of an accepted line begin.
    method Start(ghost g: Gesture)
      requires ActionOk() && begun && !action && !failed && index == 0
      requires Performable(table.screen.keymap, g) && Script() == Events(table.screen.keymap, g)
      modifies this`action, this`gateWaiting, this`gateAllowed, this`start, this`base, this`permits
      ensures ActionOk() && action
    {
      hide Events, Performable, Play, Inputs, Gates, LedgerOk, Ledger;
      AcceptedScript(table.screen.keymap, g);
      NothingYet(sent, Script());
      action, gateWaiting, gateAllowed, start := true, false, false, now;
      base, permits := |sent|, 0;
    }

    static lemma AcceptedScript(m: Keymap, g: Gesture)
      requires Performable(m, g)
      ensures AllSendable(Events(m, g)) && Play({}, Events(m, g)) == Some({})
    {
      PlanSendable(m, g);
      Balanced(m, g);
    }

    static lemma NothingYet(sent: seq<Sent>, es: seq<Event>)
      ensures Wire(sent[|sent|..]) == Inputs(es[..0]) && Gates(es[..0]) == 0 && Play({}, es[..0]) == Some({})
    {}

    // The pixel permit: only the one that is waited for, and only once.
    method Permit(serial: nat) returns (ok: bool)
      requires ActionOk()
      modifies this`gateWaiting, this`gateAllowed, this`permits
      ensures ActionOk()
      ensures ok <==> old(action && gateWaiting && !gateAllowed && serial == gateSerial)
    {
      ok := action && gateWaiting && !gateAllowed && serial == gateSerial;
      if ok {
        gateWaiting, gateAllowed := false, true;
        permits := permits + 1;
      }
    }

    // A renewal, once the plugin has granted it, only ever moves the scope deadline forward.
    method Renewed(deadlineUs: nat) returns (ok: bool)
      requires ActionOk()
      modifies this`scopeDeadline
      ensures ActionOk() && (ok <==> begun && deadlineUs > old(scopeDeadline))
      ensures scopeDeadline == if ok then deadlineUs else old(scopeDeadline)
    {
      ok := begun && deadlineUs > scopeDeadline;
      if ok { scopeDeadline := deadlineUs; }
    }

    // alive_scope(): interrupted says whether a signal, the parent or the display ended it.
    method Alive(interrupted: bool) returns (ok: bool)
      requires ActionOk()
      modifies this`now, this`failed
      ensures ActionOk() && now >= old(now)
      ensures ok == !failed
      ensures failed <==> old(failed) || interrupted || (begun && (now >= lease || now >= scopeDeadline))
    {
      var t: int := *;
      if t > now { now := t; }
      if interrupted || (begun && (now >= lease || now >= scopeDeadline)) {
        failed := true;
      }
      ok := !failed;
    }

    static lemma NextInput(es: seq<Event>, i: nat)
      requires i < |es|
      ensures Inputs(es[..i + 1]) == if es[i].what.Gate? then Inputs(es[..i]) else Inputs(es[..i]) + [es[i]]
      ensures Gates(es[..i + 1]) == Gates(es[..i]) + if es[i].what.Gate? then 1 else 0
    {
      assert es[..i + 1][..i] == es[..i];
    }

    // What the plan holds after one more of its events.
    static lemma NextHeld(es: seq<Event>, i: nat, held: set<Pressed>)
      requires i < |es| && Play({}, es).Some? && Play({}, es[..i]) == Some(held)
      ensures PlayOne(held, es[i]).Some? && Play({}, es[..i + 1]) == PlayOne(held, es[i])
    {
      PlayPrefix({}, es, i + 1);
      assert es[..i + 1] == es[..i] + [es[i]];
      PlayConcat({}, es[..i], [es[i]]);
      assert [es[i]][1..] == [];
    }

    // One event of the group that is due: past its lease check, it goes to the wire.
    method Send(due: nat)
      requires ActionOk() && action && !failed && index < table.planned && !Script()[index].what.Gate?
      requires start + Script()[index].at <= due <= now < lease && now < scopeDeadline
      modifies this`index, this`sent, this`modifiers, keys, buttons
      ensures ActionOk() && index == old(index) + 1
      ensures sent == old(sent) + [Sent(old(Script()[index]), due, now, scopeDeadline)]
    {
      hide Play, Inputs, Gates;
      ghost var es := Script();
      ghost var before := sent;
      var e := table.events[index];
      var s := Sent(e, due, now, scopeDeadline);
      assert e == es[index] && Sendable(es[index]);
      NextInput(es, index);
      NextHeld(es, index, Ledger());
      Put(s);
      SentSnoc(before, s, base);
      index := index + 1;
    }

    static lemma SentSnoc(sent: seq<Sent>, s: Sent, base: nat)
      requires base <= |sent|
      ensures (sent + [s])[base..] == sent[base..] + [s] && Wire(sent[base..] + [s]) == Wire(sent[base..]) + [s.event]
    {}

    method Put(s: Sent)
      requires LedgerOk() && Sendable(s.event) && PlayOne(Ledger(), s.event).Some?
      modifies this`sent, this`modifiers, keys, buttons
      ensures LedgerOk() && sent == old(sent) + [s] && PlayOne(old(Ledger()), s.event) == Some(Ledger())
    {
      InLedger();
      match s.event.what {
        case Key(k, down) =>
          Press(k, down, s);
        case Button(b, down) =>
          Click(b, down, s);
        case _ =>
          Appended(sent, s, Ledger());
          sent := sent + [s];
      }
    }

    // A gate: announced once, then passed only with its permit.
    method PassGate(announced: bool) returns (passed: bool)
      requires ActionOk() && action && !failed && index < table.planned && Script()[index].what.Gate?
      modifies this`index, this`gateWaiting, this`gateAllowed, this`gateSerial, this`failed
      ensures ActionOk() && (passed <==> old(gateAllowed)) && index == old(index) + if passed then 1 else 0
      ensures gateSerial == old(gateSerial) + if old(gateWaiting || gateAllowed) then 0 else 1
      ensures failed <==> !old(gateWaiting || gateAllowed) && (gateSerial > 1000000 || !announced)
      ensures !failed ==> gateWaiting == (old(gateWaiting) || !passed) && !gateAllowed
    {
      hide Play, Inputs, Gates;
      passed := false;
      if !gateWaiting && !gateAllowed {
        gateSerial := gateSerial + 1;
        if gateSerial > 1000000 || !announced {
          failed := true;
          return;
        }
        gateWaiting := true;
      }
      if !gateAllowed {
        return;
      }
      ghost var es := Script();
      NextInput(es, index);
      NextHeld(es, index, Ledger());
      gateAllowed, index := false, index + 1;
      passed := true;
    }

    ghost predicate AtGate(i: nat)
      reads table, table.events
      requires table.Valid()
    {
      i < table.planned && Script()[i].what.Gate?
    }

    // step(): queues what is due, at most a group of it, and says when the plan is used up. It
    // stops only for a failure, a full group, a gate that waits for its permit or was just passed,
    // or an event that is not due yet. obey: nothing interrupts, and gates can be announced; then
    // it fails only past its leases, or after too many gates.
    method Step(obey: bool) returns (finished: bool, due: nat)
      requires ActionOk() && !failed
      modifies this`now, this`failed, this`index, this`sent, this`modifiers, this`gateWaiting, this`gateAllowed,
               this`gateSerial, keys, buttons
      ensures ActionOk() && action == old(action) && old(sent) <= sent && |sent| <= |old(sent)| + 32
      ensures old(now) <= due <= now
      ensures finished ==> action && !failed && index == table.planned
      ensures action && !failed && !finished ==>
        || |sent| == |old(sent)| + 32 || (index < table.planned && due < start + Script()[index].at)
        || (AtGate(index) && gateWaiting && !gateAllowed) || (index > 0 && AtGate(index - 1) && old(gateAllowed))
      ensures obey && failed ==> (begun && (now >= lease || now >= scopeDeadline)) || gateSerial > 1000000
    {
      hide ActionOk;
      Wait();
      var queued := 0;
      due, finished := now, false;
      while action
        invariant ActionOk() && !failed && old(sent) <= sent && |sent| == |old(sent)| + queued && queued <= GROUP
          && old(now) <= due <= now && gateWaiting == old(gateWaiting) && gateAllowed == old(gateAllowed)
        decreases table.planned - index
      {
        UsedUp();
        if index == table.planned {
          return true, due;
        }
        var interrupted: bool :| obey ==> !interrupted;
        var alive := Alive(interrupted);
        if !alive || queued == GROUP {
          return;
        }
        if due < start + table.events[index].at {
          assert due < start + Script()[index].at;
          return;
        }
        if table.events[index].what.Gate? {
          assert AtGate(index);
          var announced: bool :| obey ==> announced;
          var _ := PassGate(announced);
          return;
        }
        Send(due);
        queued := queued + 1;
      }
    }

    // Some time passes.
    method Wait()
      requires ActionOk()
      modifies this`now
      ensures ActionOk() && now >= old(now)
    {
      hide Play, Inputs, Gates, LedgerOk, InTime;
      var t: int := *;
      if t > now { now := t; }
    }

    lemma UsedUp()
      requires ActionOk() && action && !failed
      ensures table.Valid() && index <= table.planned <= table.events.Length && begun
      ensures index == table.planned ==> Ledger() == {}
    {
      if index == table.planned { assert Script()[..index] == Script(); }
    }

    // The local half of release_all(): an up for everything held, buttons first, keys from the
    // highest down. It needs no lease.
    method ReleaseOwned(disconnected: bool) returns (queued: bool)
      requires ActionOk() && (failed || !action || index == table.planned)
      modifies this`sent, this`modifiers, keys, buttons
      ensures ActionOk() && queued == !disconnected && old(sent) <= sent
      ensures queued ==> Ledger() == {} && !modifiers && Play({}, Wire(sent)) == Some({})
      ensures forall i :: |old(sent)| <= i < |sent| ==> Released(sent[i].event)
      ensures !old(failed) ==> sent == old(sent)
    {
      hide Play, Inputs, Gates, InTime;
      queued := !disconnected;
      if !failed && action { UsedUp(); }
      if queued {
        assert failed || Ledger() == {};
        ReleaseButtons();
        ReleaseKeys();
        modifiers := false;
      }
    }

    predicate Released(e: Event) {
      match e.what
      case Key(_, down) => !down
      case Button(_, down) => !down
      case _ => false
    }

    method ReleaseButtons()
      requires LedgerOk()
      modifies this`sent, buttons
      ensures LedgerOk() && old(sent) <= sent && Ledger() <= old(Ledger())
      ensures forall j :: 0 <= j < 8 ==> !buttons[j]
      ensures forall i :: |old(sent)| <= i < |sent| ==> Released(sent[i].event)
      ensures old(Ledger()) == {} ==> sent == old(sent)
    {
      hide Play;
      var b := 272;
      while b <= 279
        invariant 272 <= b <= 280 && LedgerOk() && old(sent) <= sent && Ledger() <= old(Ledger())
        invariant forall j :: 0 <= j < b - 272 ==> !buttons[j]
        invariant forall i :: |old(sent)| <= i < |sent| ==> Released(sent[i].event)
        invariant old(Ledger()) == {} ==> sent == old(sent)
      {
        InLedger();
        if buttons[b - 272] {
          assert PressedButton(b) in Ledger();
          Click(b, false, Sent(Event(Button(b, false), 0), now, now, scopeDeadline));
        }
        b := b + 1;
      }
    }

    method ReleaseKeys()
      requires LedgerOk() && forall j :: 0 <= j < 8 ==> !buttons[j]
      modifies this`sent, this`modifiers, keys
      ensures LedgerOk() && old(sent) <= sent && Ledger() == {}
      ensures forall i :: |old(sent)| <= i < |sent| ==> Released(sent[i].event)
      ensures old(Ledger()) == {} ==> sent == old(sent)
    {
      hide Play;
      var k := 247;
      while k > 0
        invariant 0 <= k <= 247 && LedgerOk() && old(sent) <= sent && Ledger() <= old(Ledger())
        invariant forall j :: k < j < 248 ==> !keys[j]
        invariant forall i :: |old(sent)| <= i < |sent| ==> Released(sent[i].event)
        invariant old(Ledger()) == {} ==> sent == old(sent)
      {
        InLedger();
        if keys[k] {
          assert PressedKey(k) in Ledger();
          Press(k, false, Sent(Event(Key(k, false), 0), now, now, scopeDeadline));
        }
        k := k - 1;
      }
      InLedger();
      assert forall p :: !Down(p);
      assert Ledger() == {};
    }
  }
}
