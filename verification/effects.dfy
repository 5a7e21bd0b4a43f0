/** Two front-end effects that public/script.js and script.js both carry, in identical code
    except where noted: the hero typing animation and the Konami-code key buffer. */
module Effects {
  import opened Text

  // ---------------------------------------------------------------- typing animation

  /** The texts the hero line types and deletes in turn. */
  const TypedTexts: seq<string> := ["Muktar Abdi", "Web Developer", "Software Engineer", "Coding Enthusiast"]

  /** The closure's `(textIndex, charIndex, isDeleting)`. */
  datatype Typing = Typing(textIndex: int, charIndex: int, deleting: bool)

  function TextLength(i: int): nat
    requires 0 <= i < |TypedTexts|
  {
    |TypedTexts[i]|
  }

  lemma TextsNonEmpty()
    ensures |TypedTexts| == 4
    ensures forall i :: 0 <= i < |TypedTexts| ==> TextLength(i) > 0
  {
    assert |TypedTexts| == 4;
    assert TextLength(0) == 11 && TextLength(1) == 13 && TextLength(2) == 17 && TextLength(3) == 17;
  }

  /** The states `type()` is called in: while typing, not yet at the end of the text; while
      deleting, not yet at its start. */
  predicate TypingOk(t: Typing) {
    && 0 <= t.textIndex < |TypedTexts|
    && (if t.deleting then 0 < t.charIndex <= TextLength(t.textIndex)
        else 0 <= t.charIndex < TextLength(t.textIndex))
  }

  const TypingStart := Typing(0, 0, false)

  /** One call of `type()`: the next state. */
  function Step(t: Typing): (r: Typing)
    requires TypingOk(t)
    ensures TypingOk(r)
  {
    TextsNonEmpty();
    var n := TextLength(t.textIndex);
    var c := if t.deleting then t.charIndex - 1 else t.charIndex + 1;
    if !t.deleting && c == n then Typing(t.textIndex, c, true)
    else if t.deleting && c == 0 then Typing((t.textIndex + 1) % |TypedTexts|, 0, false)
    else Typing(t.textIndex, c, t.deleting)
  }

  /** The text `type()` writes into the element. */
  function Shown(t: Typing): string
    requires TypingOk(t)
  {
    var text := TypedTexts[t.textIndex];
    if t.deleting then text[..t.charIndex - 1] else text[..t.charIndex + 1]
  }

  /** The pause before the next call, in milliseconds. */
  function Delay(t: Typing): nat
    requires TypingOk(t)
  {
    var r := Step(t);
    if r.deleting && !t.deleting then 1500
    else if !r.deleting && t.deleting then 500
    else if t.deleting then 50
    else 100
  }

  /** What each step shows is the current text cut at the new `charIndex`; deleting starts
      exactly when `charIndex` reaches the text's length; the text advances (modulo four)
      exactly when deleting reaches 0; otherwise `charIndex` moves by one. */
  lemma StepSpec(t: Typing)
    requires TypingOk(t)
    ensures Shown(t) == TypedTexts[t.textIndex][..Step(t).charIndex]
    ensures !t.deleting ==> (Step(t).deleting <==> t.charIndex + 1 == TextLength(t.textIndex))
    ensures Step(t).textIndex != t.textIndex <==> t.deleting && t.charIndex == 1
    ensures Step(t).textIndex != t.textIndex ==>
      Step(t) == Typing((t.textIndex + 1) % 4, 0, false)
    ensures Step(t).textIndex == t.textIndex ==>
      Step(t).charIndex == (if t.deleting then t.charIndex - 1 else t.charIndex + 1)
  {
    TextsNonEmpty();
  }

  /** `k` calls of `type()`. */
  function StepN(t: Typing, k: nat): (r: Typing)
    requires TypingOk(t)
    ensures TypingOk(r)
    decreases k
  {
    if k == 0 then t else StepN(Step(t), k - 1)
  }

  lemma {:induction false} TypeToEnd(i: int, c: int)
    requires 0 <= i < |TypedTexts| && 0 <= c < TextLength(i)
    ensures TypingOk(Typing(i, c, false))
    ensures StepN(Typing(i, c, false), TextLength(i) - c) == Typing(i, TextLength(i), true)
    decreases TextLength(i) - c
  {
    if c + 1 < TextLength(i) {
      TypeToEnd(i, c + 1);
    }
  }

  lemma {:induction false} DeleteToStart(i: int, c: int)
    requires 0 <= i < |TypedTexts| && 0 < c <= TextLength(i)
    ensures TypingOk(Typing(i, c, true))
    ensures StepN(Typing(i, c, true), c) == Typing((i + 1) % 4, 0, false)
    decreases c
  {
    TextsNonEmpty();
    if c > 1 {
      DeleteToStart(i, c - 1);
    }
  }

  lemma {:induction false} StepNAdd(t: Typing, a: nat, b: nat)
    requires TypingOk(t)
    ensures StepN(t, a + b) == StepN(StepN(t, a), b)
    decreases a
  {
    if a > 0 {
      StepNAdd(Step(t), a - 1, b);
      assert StepN(t, a + b) == StepN(Step(t), (a - 1) + b);
      assert StepN(t, a) == StepN(Step(t), a - 1);
    }
  }

  /** Each text is typed out in full and deleted in twice its length of steps, after which
      the animation starts the next text, so the four texts cycle forever. */
  lemma TextCycle(i: int)
    requires 0 <= i < |TypedTexts|
    ensures TypingOk(Typing(i, 0, false))
    ensures StepN(Typing(i, 0, false), 2 * TextLength(i)) == Typing((i + 1) % 4, 0, false)
  {
    TextsNonEmpty();
    var n := TextLength(i);
    TypeToEnd(i, 0);
    DeleteToStart(i, n);
    StepNAdd(Typing(i, 0, false), n, n);
  }

  /** The animated element together with the closure's state. */
  class Typewriter {
    var textIndex: int
    var charIndex: int
    var isDeleting: bool
    var text: string

    ghost predicate Valid()
      reads this
    {
      TypingOk(Typing(textIndex, charIndex, isDeleting))
    }

    constructor ()
      ensures Valid() && Typing(textIndex, charIndex, isDeleting) == TypingStart && text == ""
    {
      textIndex, charIndex, isDeleting, text := 0, 0, false, "";
      TextsNonEmpty();
    }

    /** `type()`: write the next prefix, move `charIndex`, and switch direction or text at
        the ends; returns the pause before the next call. */
    method Type() returns (delay: nat)
      requires Valid()
      modifies this
      ensures Valid()
      ensures Typing(textIndex, charIndex, isDeleting) == Step(old(Typing(textIndex, charIndex, isDeleting)))
      ensures text == TypedTexts[old(textIndex)][..charIndex]
      ensures delay == Delay(old(Typing(textIndex, charIndex, isDeleting)))
    {
      ghost var before := Typing(textIndex, charIndex, isDeleting);
      StepSpec(before);
      TextsNonEmpty();
      var currentText := TypedTexts[textIndex];
      text := if isDeleting then currentText[..charIndex - 1] else currentText[..charIndex + 1];
      charIndex := if isDeleting then charIndex - 1 else charIndex + 1;
      if !isDeleting && charIndex == |currentText| {
        isDeleting := true;
        delay := 1500;
      } else if isDeleting && charIndex == 0 {
        isDeleting := false;
        textIndex := (textIndex + 1) % |TypedTexts|;
        delay := 500;
      } else {
        delay := if isDeleting then 50 else 100;
      }
    }
  }

  // ---------------------------------------------------------------- Konami buffer

  const KonamiCode: seq<string> := [
    "ArrowUp", "ArrowUp", "ArrowDown", "ArrowDown",
    "ArrowLeft", "ArrowRight", "ArrowLeft", "ArrowRight",
    "b", "a"
  ]

  /** `s.slice(-n)` for `n > 0`: the last `n` elements, or all of them. */
  function LastN<T>(s: seq<T>, n: nat): (r: seq<T>)
    ensures |r| == if |s| < n then |s| else n
    ensures forall i :: 0 <= i < |r| ==> r[i] == s[|s| - |r| + i]
  {
    if |s| <= n then s else s[|s| - n..]
  }

  /** Sliding the window one key at a time keeps exactly the last `n` keys of the whole
      sequence pressed. */
  lemma SlideWindow<T>(s: seq<T>, k: T, n: nat)
    ensures LastN(LastN(s, n) + [k], n) == LastN(s + [k], n)
  {
    var a := LastN(LastN(s, n) + [k], n);
    var b := LastN(s + [k], n);
    assert |a| == |b|;
    forall i | 0 <= i < |a| ensures a[i] == b[i] {
      if i == |a| - 1 {
      } else {
        assert (LastN(s, n) + [k])[|LastN(s, n)| + 1 - |a| + i] == LastN(s, n)[|LastN(s, n)| + 1 - |a| + i];
      }
    }
  }

  /** The buffer is compared with the code by joining the keys of each into one string. */
  predicate KonamiMatch(buffer: seq<string>, code: seq<string>) {
    Join(buffer) == Join(code)
  }

  /** The Konami listener. public/script.js empties the buffer after a match; script.js keeps
      it. `pressed` is every key since the buffer was last emptied. */
  class Konami {
    var buffer: seq<string>
    var activations: nat
    ghost var pressed: seq<string>
    const code: seq<string>
    const resetOnMatch: bool

    ghost predicate Valid()
      reads this
    {
      |code| == 10 && buffer == LastN(pressed, |code|)
    }

    constructor (resetOnMatch: bool)
      ensures Valid() && buffer == [] && activations == 0
      ensures code == KonamiCode && this.resetOnMatch == resetOnMatch
    {
      this.resetOnMatch := resetOnMatch;
      code := KonamiCode;
      buffer, activations, pressed := [], 0, [];
    }

    /** A keydown: push the key, keep the last ten, and compare with the code. */
    method KeyDown(key: string) returns (matched: bool)
      requires Valid()
      modifies this
      ensures Valid() && |buffer| <= 10
      ensures matched <==> KonamiMatch(LastN(old(pressed) + [key], 10), code)
      ensures matched ==> activations == old(activations) + 1
      ensures !matched ==> activations == old(activations)
      ensures resetOnMatch && matched ==> buffer == [] && pressed == []
      ensures !(resetOnMatch && matched) ==> buffer == LastN(old(pressed) + [key], 10) && pressed == old(pressed) + [key]
    {
      SlideWindow(pressed, key, |code|);
      pressed := pressed + [key];
      buffer := buffer + [key];
      buffer := LastN(buffer, |code|);
      matched := Join(buffer) == Join(code);
      if matched {
        activations := activations + 1;
        if resetOnMatch {
          buffer := [];
          pressed := [];
        }
      }
    }
  }
}
