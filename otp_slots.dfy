/**
 * The pure logic behind the six one-character OTP inputs of the reset-password page
 * (frontend/src/pages/ResetPassword.jsx): joining the slot values into the code, the
 * clipboard text a paste distributes, the effect of that paste on the slots, and the
 * focus moves made by the input and keydown handlers.
 */
module OtpSlots {

  /** Number of OTP inputs the page renders (`Array(6)`). */
  const SlotCount: nat := 6

  /** Number of clipboard characters a paste keeps (`slice(0, 6)`). */
  const PasteLimit: nat := 6

  /** Minimum length of the joined code accepted by the OTP form. */
  const OtpLength: nat := 6

  /** Each input has `maxLength` 1, and a paste writes one character: a slot holds at most one character. */
  ghost predicate ShortSlots(slots: seq<string>) {
    forall i :: 0 <= i < |slots| ==> |slots[i]| <= 1
  }

  ghost predicate FilledSlots(slots: seq<string>) {
    forall i :: 0 <= i < |slots| ==> |slots[i]| == 1
  }

  // ---------------------------------------------------------------- joining

  /** `slots.map(v => v).join('')`: the slot values concatenated in order. */
  function Join(slots: seq<string>): (joined: string)
    ensures ShortSlots(slots) ==> |joined| <= |slots|
  {
    if slots == [] then "" else slots[0] + Join(slots[1..])
  }

  /** With short slots, the joined code has one character per slot exactly when every slot is filled. */
  lemma {:induction false} JoinFullIffFilled(slots: seq<string>)
    requires ShortSlots(slots)
    ensures |Join(slots)| == |slots| <==> FilledSlots(slots)
  {
    if slots != [] {
      assert ShortSlots(slots[1..]) by {
        forall i | 0 <= i < |slots[1..]| ensures |slots[1..][i]| <= 1 {
          assert slots[1..][i] == slots[i + 1];
        }
      }
      JoinFullIffFilled(slots[1..]);
      if FilledSlots(slots) {
        assert FilledSlots(slots[1..]) by {
          forall i | 0 <= i < |slots[1..]| ensures |slots[1..][i]| == 1 {
            assert slots[1..][i] == slots[i + 1];
          }
        }
      }
      if |Join(slots)| == |slots| {
        assert |slots[0]| == 1 && |Join(slots[1..])| == |slots[1..]|;
        forall i | 0 <= i < |slots| ensures |slots[i]| == 1 {
          if i > 0 { assert slots[i] == slots[1..][i - 1]; }
        }
      }
    }
  }

  /** With every slot filled, the joined code holds the slots' characters, one per position, in order. */
  lemma {:induction false} JoinFilled(slots: seq<string>)
    requires FilledSlots(slots)
    ensures |Join(slots)| == |slots|
    ensures forall i :: 0 <= i < |slots| ==> Join(slots)[i] == slots[i][0]
  {
    if slots != [] {
      assert FilledSlots(slots[1..]) by {
        forall i | 0 <= i < |slots[1..]| ensures |slots[1..][i]| == 1 {
          assert slots[1..][i] == slots[i + 1];
        }
      }
      JoinFilled(slots[1..]);
      forall i | 0 <= i < |slots| ensures Join(slots)[i] == slots[i][0] {
        if i > 0 { assert slots[i] == slots[1..][i - 1]; }
      }
    }
  }

  /** The gate of the OTP form counts characters only: any six characters pass, digits or not. */
  lemma NonDigitCodePasses()
    ensures |Join(["a", "b", "c", "d", "e", "f"])| >= OtpLength
  {
  }

  // ---------------------------------------------------------------- paste

  /** `getData('text').slice(0, 6)`: the clipboard text cut to at most six characters. */
  function PasteText(clip: string): (paste: string)
    ensures |paste| == if |clip| < PasteLimit then |clip| else PasteLimit
    ensures paste <= clip
  {
    if |clip| <= PasteLimit then clip else clip[..PasteLimit]
  }

  /**
   * The slots after `paste.split('').forEach((char, index) => ...)`: character `index` is
   * written into slot `index` when that slot exists, one write after the other.
   */
  function Pasted(slots: seq<string>, paste: string): (result: seq<string>)
    decreases |paste|
    ensures |result| == |slots|
    ensures forall i :: 0 <= i < |slots| ==>
      result[i] == if i < |paste| then [paste[i]] else slots[i]
  {
    if paste == [] then slots
    else
      var k := |paste| - 1;
      var before := Pasted(slots, paste[..k]);
      if k < |before| then before[k := [paste[k]]] else before
  }

  lemma PastedKeepsShortSlots(slots: seq<string>, paste: string)
    requires ShortSlots(slots)
    ensures ShortSlots(Pasted(slots, paste))
  {
  }

  /** Pasting the same text twice leaves the slots as one paste does. */
  lemma PasteIdempotent(slots: seq<string>, paste: string)
    ensures Pasted(Pasted(slots, paste), paste) == Pasted(slots, paste)
  {
  }

  /** A clipboard of at least six characters fills all six slots, and the joined code is its first six characters. */
  lemma {:induction false} PasteFillsCode(slots: seq<string>, clip: string)
    requires |slots| == SlotCount && |clip| >= PasteLimit
    ensures FilledSlots(Pasted(slots, PasteText(clip)))
    ensures Join(Pasted(slots, PasteText(clip))) == clip[..OtpLength]
  {
    var result := Pasted(slots, PasteText(clip));
    JoinFilled(result);
    assert Join(result) == clip[..OtpLength];
  }

  // ---------------------------------------------------------------- focus

  /**
   * `handleInput`: after the input at `index` receives a non-empty value, focus moves to the
   * next input, unless `index` is the last one; otherwise the focus stays where it was.
   */
  function FocusAfterInput(focus: nat, index: nat, value: string, count: nat): (next: nat)
    requires focus < count && index < count
    ensures next < count
    ensures |value| > 0 && index + 1 < count ==> next == index + 1
    ensures |value| == 0 || index + 1 == count ==> next == focus
  {
    if |value| > 0 && index < count - 1 then index + 1 else focus
  }

  /**
   * `handleKeyDown`: Backspace pressed in an input that is already empty moves focus to the
   * previous input, unless `index` is the first one; any other key, or a non-empty input, leaves it.
   */
  function FocusAfterKey(focus: nat, index: nat, key: string, value: string, count: nat): (next: nat)
    requires focus < count && index < count
    ensures next < count
    ensures key == "Backspace" && value == "" && index > 0 ==> next == index - 1
    ensures key != "Backspace" || value != "" || index == 0 ==> next == focus
  {
    if key == "Backspace" && value == "" && index > 0 then index - 1 else focus
  }

  /**
   * Typing a character in a slot before the last advances the focus; Backspace pressed in the
   * newly focused slot, while it is still empty, brings the focus back to the typed slot.
   */
  lemma BackspaceReturnsAfterAdvance(focus: nat, index: nat, value: string, count: nat)
    requires focus < count && index + 1 < count && value != ""
    ensures var next := FocusAfterInput(focus, index, value, count);
      next == index + 1 && FocusAfterKey(next, next, "Backspace", "", count) == index
  {
  }
}
