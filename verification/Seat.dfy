// The compositor's side of a button: one list of held buttons with no notion of whose hold
// an entry is, and the receiver behind it (hyprland-owned-release-counterexample.cpp).
module Seat {
  import opened Words

  // Who pressed is known to the model only; the compositor keeps the code alone.
  datatype Hold = Hold(code: uint32, device: nat)

  // input(): a press is appended; a release erases every entry with its code.
  function Input(held: seq<Hold>, code: uint32, device: nat, down: bool): seq<Hold> {
    if down then held + [Hold(code, device)] else Erased(held, code)
  }

  function Erased(held: seq<Hold>, code: uint32): seq<Hold> {
    if held == [] then []
    else if held[0].code == code then Erased(held[1..], code)
    else [held[0]] + Erased(held[1..], code)
  }

  lemma {:induction false} ErasedKeepsOthers(held: seq<Hold>, code: uint32, h: Hold)
    ensures h in Erased(held, code) <==> h in held && h.code != code
  {
    if held != [] {
      ErasedKeepsOthers(held[1..], code, h);
    }
  }

  // A release by one device loses another device's hold exactly when that device holds the
  // same button: this is why a release may be dispatched only under exclusive ownership.
  lemma ReleaseErasesExactly(held: seq<Hold>, code: uint32, device: nat)
    ensures (exists h :: h in held && h.device != device && h !in Input(held, code, device, false)) <==>
            (exists h :: h in held && h.device != device && h.code == code)
  {
    forall h ensures h in Erased(held, code) <==> h in held && h.code != code {
      ErasedKeepsOthers(held, code, h);
    }
    if h :| h in held && h.device != device && h.code == code {
      assert h !in Input(held, code, device, false);
    }
  }

  // ---- The pipeline with its receiver ----

  const LEFT_BUTTON: uint32 := 272

  class Pipeline {
    var held: seq<Hold>
    var receiverPressed: set<uint32>
    var wire: seq<bool>

    // The receiver is down for exactly the listed codes; its wire alternates with its state.
    ghost predicate Valid()
      reads this
    {
      forall c :: c in receiverPressed <==> exists h :: h in held && h.code == c
    }

    constructor ()
      ensures Valid() && held == [] && receiverPressed == {} && wire == []
    {
      held, receiverPressed, wire := [], {}, [];
    }

    method Receiver(code: uint32, down: bool)
      modifies this`receiverPressed, this`wire
      ensures receiverPressed == if down then old(receiverPressed) + {code} else old(receiverPressed) - {code}
      ensures wire == if (code in old(receiverPressed)) == down then old(wire) else old(wire) + [down]
    {
      if (!down && code !in receiverPressed) || (down && code in receiverPressed) {
        return;
      }
      receiverPressed := if down then receiverPressed + {code} else receiverPressed - {code};
      wire := wire + [down];
    }

    method Press(code: uint32, device: nat)
      requires Valid()
      modifies this
      ensures Valid() && held == Input(old(held), code, device, true)
      ensures receiverPressed == old(receiverPressed) + {code}
      ensures wire == if code in old(receiverPressed) then old(wire) else old(wire) + [true]
    {
      held := held + [Hold(code, device)];
      Receiver(code, true);
    }

    method Release(code: uint32, device: nat)
      requires Valid()
      modifies this
      ensures Valid() && held == Input(old(held), code, device, false)
      ensures receiverPressed == old(receiverPressed) - {code}
      ensures wire == if code in old(receiverPressed) then old(wire) + [false] else old(wire)
    {
      ghost var before := held;
      var present := exists i :: 0 <= i < |held| && held[i].code == code;
      if !present {
        NothingErased(held, code);
        return;
      }
      held := Erased(held, code);
      forall h ensures h in held <==> h in before && h.code != code {
        ErasedKeepsOthers(before, code, h);
      }
      Receiver(code, false);
    }

    // A human press, a release by Odin's pointer of the same button, the human's release: the
    // receiver saw one press and one early release, and the human's own release was swallowed.
    method OverlapCounterexample(human: nat, odin: nat)
      requires Valid() && held == [] && receiverPressed == {} && wire == [] && human != odin
      modifies this
      ensures Valid() && held == [] && wire == [true, false]
    {
      Press(LEFT_BUTTON, human);
      Press(LEFT_BUTTON, odin);
      var two := held;
      assert Erased(two, LEFT_BUTTON) == Erased(two[1..], LEFT_BUTTON) == Erased(two[1..][1..], LEFT_BUTTON) == [];
      Release(LEFT_BUTTON, odin);
      Release(LEFT_BUTTON, human);
    }
  }

  lemma {:induction false} NothingErased(held: seq<Hold>, code: uint32)
    requires forall i :: 0 <= i < |held| ==> held[i].code != code
    ensures Erased(held, code) == held
  {
    if held != [] {
      NothingErased(held[1..], code);
    }
  }
}
