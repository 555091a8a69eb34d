/** The search field's placeholder animation (`typePlaceholder`): the five
    texts are typed one character per call, erased one character per call,
    and the next text is started once the previous one is fully erased. */
module Placeholder {

  /** `placeholderTexts`; the fifth is "CUIDADO: NÃO DIGITE 'ALURA CODE'.....". */
  const Texts: seq<string> := [
    "chrono trigger...", "nintendo...", "1991...", "street fighter II...",
    "CUIDADO: N\U{C3}O DIGITE 'ALURA CODE'....."
  ]

  /** Delays, in milliseconds, before the next call. */
  const TypingDelay: nat := 150
  const DeletingDelay: nat := 80
  const PauseDelay: nat := 1200

  /** The three module-level variables `textIndex`, `charIndex`, `isDeleting`. */
  datatype State = State(textIndex: nat, charIndex: nat, isDeleting: bool)

  /** The bounds every reachable state keeps. */
  predicate Inv(s: State) {
    s.textIndex < |Texts| && s.charIndex <= |Texts[s.textIndex]|
  }

  /** The state the page starts in. */
  const Start := State(0, 0, false)

  /** One call of `typePlaceholder`, timers left aside. */
  function Step(s: State): (r: State)
    requires Inv(s)
    ensures Inv(r)
  {
    var current := Texts[s.textIndex];
    if !s.isDeleting && s.charIndex < |current| then
      s.(charIndex := s.charIndex + 1)
    else if s.isDeleting && s.charIndex > 0 then
      s.(charIndex := s.charIndex - 1)
    else if s.isDeleting then
      s.(isDeleting := false, textIndex := (s.textIndex + 1) % |Texts|)
    else
      s.(isDeleting := true)
  }

  /** `n` consecutive calls. */
  function Steps(s: State, n: nat): (r: State)
    requires Inv(s)
    ensures Inv(r)
    decreases n
  {
    if n == 0 then s else Steps(Step(s), n - 1)
  }

  /** While typing and not at the end of the text, a call shows one more character. */
  lemma TypingAdvances(s: State)
    requires Inv(s) && !s.isDeleting && s.charIndex < |Texts[s.textIndex]|
    ensures Step(s) == State(s.textIndex, s.charIndex + 1, false)
  {
  }

  /** While erasing and something is still shown, a call shows one character less. */
  lemma DeletingRetreats(s: State)
    requires Inv(s) && s.isDeleting && s.charIndex > 0
    ensures Step(s) == State(s.textIndex, s.charIndex - 1, true)
  {
  }

  /** At either end the direction flips, and the text changes only when typing resumes. */
  lemma TurnAtEnds(s: State)
    requires Inv(s)
    requires if s.isDeleting then s.charIndex == 0 else s.charIndex == |Texts[s.textIndex]|
    ensures Step(s).isDeleting == !s.isDeleting
    ensures Step(s).charIndex == s.charIndex
    ensures Step(s).textIndex == if s.isDeleting then (s.textIndex + 1) % |Texts| else s.textIndex
  {
  }

  lemma {:induction false} StepsAdd(s: State, a: nat, b: nat)
    requires Inv(s)
    ensures Steps(s, a + b) == Steps(Steps(s, a), b)
    decreases a
  {
    if a > 0 {
      StepsAdd(Step(s), a - 1, b);
    }
  }

  /** From any point of the typing phase, the rest of the text is typed out. */
  lemma {:induction false} TypesOut(t: nat, k: nat)
    requires t < |Texts| && k <= |Texts[t]|
    ensures Steps(State(t, k, false), |Texts[t]| - k) == State(t, |Texts[t]|, false)
    decreases |Texts[t]| - k
  {
    if k < |Texts[t]| {
      TypesOut(t, k + 1);
    }
  }

  /** From any point of the erasing phase, the rest of the text is erased. */
  lemma {:induction false} ErasesOut(t: nat, k: nat)
    requires t < |Texts| && k <= |Texts[t]|
    ensures Steps(State(t, k, true), k) == State(t, 0, true)
  {
    if k > 0 {
      ErasesOut(t, k - 1);
    }
  }

  /** A whole cycle: a text of length L is typed, erased and replaced by the
      next text (cyclically) after exactly 2 * L + 2 calls. */
  lemma Cycle(t: nat)
    requires t < |Texts|
    ensures Steps(State(t, 0, false), 2 * |Texts[t]| + 2)
            == State((t + 1) % |Texts|, 0, false)
  {
    var n := |Texts[t]|;
    var s0 := State(t, 0, false);
    TypesOut(t, 0);
    StepsAdd(s0, n, 1);
    assert Steps(s0, n + 1) == State(t, n, true);
    ErasesOut(t, n);
    StepsAdd(s0, n + 1, n);
    StepsAdd(s0, 2 * n + 1, 1);
  }

  /** The page's animation state, updated in place by each call. */
  class Animation {
    var textIndex: nat
    var charIndex: nat
    var isDeleting: bool

    function Current(): State
      reads this
    {
      State(textIndex, charIndex, isDeleting)
    }

    ghost predicate Valid()
      reads this
    {
      Inv(Current())
    }

    constructor ()
      ensures Valid() && Current() == Start
    {
      textIndex, charIndex, isDeleting := 0, 0, false;
    }

    /** `typePlaceholder`: returns the placeholder text it displays and the
        delay it schedules the next call with, and moves to the next state. */
    method Tick() returns (shown: string, delay: nat)
      requires Valid()
      modifies this
      ensures Valid() && Current() == Step(old(Current()))
      ensures shown == Texts[old(textIndex)][..old(charIndex)]
      ensures delay == if isDeleting != old(isDeleting) then PauseDelay
                       else if old(isDeleting) then DeletingDelay else TypingDelay
    {
      var currentText := Texts[textIndex];
      var speed := if isDeleting then DeletingDelay else TypingDelay;
      shown := currentText[..charIndex];
      if !isDeleting && charIndex < |currentText| {
        charIndex := charIndex + 1;
        delay := speed;
      } else if isDeleting && charIndex > 0 {
        charIndex := charIndex - 1;
        delay := speed;
      } else {
        isDeleting := !isDeleting;
        if !isDeleting {
          textIndex := (textIndex + 1) % |Texts|;
        }
        delay := PauseDelay;
      }
    }
  }
}
