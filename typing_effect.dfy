/**
 * Model of the typewriter effect (scripts/effects/typing-effect.js): each step
 * shows a prefix of the current role, grows or shrinks it by one character,
 * and chooses the delay before the next step. The browser timer is modelled
 * as the delay of the single pending step.
 */
module Typewriter {
  import opened Wrappers

  /** The roles the effect cycles through, in order. */
  const Roles: seq<string> := ["Graphic Designer", "Web Developer", "Creative Thinker", "Tech Explorer", "UI/UX Enthusiast"]

  /** Delays, in milliseconds, before the next step. */
  const TypeDelay: nat := 100
  const DeleteDelay: nat := 50
  const NextRoleDelay: nat := 500
  const FullyTypedDelay: nat := 1000

  /** The step state: `roleIndex`, `charIndex`, `isDeleting`. */
  datatype Typer = Typer(roleIndex: int, charIndex: int, isDeleting: bool)

  /** What one step produces: the next state, the text shown and the delay before the next step. */
  datatype StepResult = StepResult(next: Typer, shown: string, delay: nat)

  predicate IsPrefix(p: string, s: string) {
    |p| <= |s| && p == s[..|p|]
  }

  /**
   * JavaScript's `s.substring(0, end)`: the first `end` characters, where an
   * end below 0 counts as 0 and one past the length as the length.
   */
  function Substring0(s: string, end: int): (r: string)
    ensures IsPrefix(r, s)
    ensures |r| == if end <= 0 then 0 else if end >= |s| then |s| else end
  {
    if end <= 0 then "" else if end >= |s| then s else s[..end]
  }

  /**
   * The states reachable from `start`: a role index in range; while typing at
   * most the whole role has been passed, while deleting at least one character
   * is left to remove.
   */
  predicate Consistent(t: Typer) {
    && 0 <= t.roleIndex < |Roles|
    && (if t.isDeleting then 1 <= t.charIndex <= |Roles[t.roleIndex]| + 1
        else 0 <= t.charIndex <= |Roles[t.roleIndex]|)
  }

  /** The state `start` resets to. */
  const Initial: Typer := Typer(0, 0, false)

  /**
   * One call of `type()` while not paused: show `substring(0, charIndex)`, then
   * move `charIndex` by one; switch to the next role (cyclically) when deleting
   * reaches 0, or to deleting when typing passes the end of the role.
   */
  function Step(t: Typer): (r: StepResult)
    requires 0 <= t.roleIndex < |Roles|
    ensures IsPrefix(r.shown, Roles[t.roleIndex])
    ensures |r.shown| == if t.charIndex <= 0 then 0 else if t.charIndex >= |Roles[t.roleIndex]| then |Roles[t.roleIndex]| else t.charIndex
    ensures Consistent(t) ==> Consistent(r.next)
    ensures 0 <= r.next.roleIndex < |Roles|
    ensures r.next.roleIndex == if t.isDeleting && !r.next.isDeleting then (t.roleIndex + 1) % |Roles| else t.roleIndex
    ensures r.next.charIndex == if t.isDeleting then t.charIndex - 1 else t.charIndex + 1
    ensures r.delay == NextRoleDelay <==> t.isDeleting && r.next.charIndex == 0
    ensures r.delay == FullyTypedDelay <==> !t.isDeleting && r.next.charIndex == |Roles[t.roleIndex]| + 1
    ensures r.delay == DeleteDelay <==> t.isDeleting && r.next.charIndex != 0
    ensures r.delay == TypeDelay <==> !t.isDeleting && r.next.charIndex != |Roles[t.roleIndex]| + 1
    ensures r.next.isDeleting <==> (t.isDeleting && r.next.charIndex != 0) || (!t.isDeleting && r.next.charIndex == |Roles[t.roleIndex]| + 1)
  {
    var current := Roles[t.roleIndex];
    var shown := Substring0(current, t.charIndex);
    var ci := if t.isDeleting then t.charIndex - 1 else t.charIndex + 1;
    if t.isDeleting && ci == 0 then
      StepResult(Typer((t.roleIndex + 1) % |Roles|, ci, false), shown, NextRoleDelay)
    else if !t.isDeleting && ci == |current| + 1 then
      StepResult(Typer(t.roleIndex, ci, true), shown, FullyTypedDelay)
    else
      StepResult(Typer(t.roleIndex, ci, t.isDeleting), shown, if t.isDeleting then DeleteDelay else TypeDelay)
  }

  /** While typing, each step shows one more character of the role than the step before. */
  lemma ShownGrowsWhileTyping(r: int, c: int)
    requires 0 <= r < |Roles| && 0 <= c < |Roles[r]|
    ensures Step(Typer(r, c + 1, false)).shown == Step(Typer(r, c, false)).shown + [Roles[r][c]]
  {
    var a, b := Step(Typer(r, c, false)).shown, Step(Typer(r, c + 1, false)).shown;
    assert |a| == c && |b| == c + 1;
    assert b == Roles[r][..c + 1] && a == Roles[r][..c];
    assert Roles[r][..c + 1] == Roles[r][..c] + [Roles[r][c]];
  }

  /** While deleting, each step inside the role shows one character fewer than the step before. */
  lemma ShownShrinksWhileDeleting(r: int, c: int)
    requires 0 <= r < |Roles| && 1 <= c <= |Roles[r]|
    ensures Step(Typer(r, c - 1, true)).shown == Step(Typer(r, c, true)).shown[..c - 1]
  {
    var a, b := Step(Typer(r, c, true)).shown, Step(Typer(r, c - 1, true)).shown;
    assert |a| == c && |b| == c - 1;
    assert a == Roles[r][..c] && b == Roles[r][..c - 1];
  }

  /** The state after `n` unpaused steps. */
  function Run(t: Typer, n: nat): (u: Typer)
    requires Consistent(t)
    ensures Consistent(u)
    decreases n
  {
    if n == 0 then t else Run(Step(t).next, n - 1)
  }

  /** Typing from `c` characters: after `k` more steps (not past the end) `c + k` characters are passed. */
  lemma {:induction false} TypingPhase(r: int, c: int, k: nat)
    requires 0 <= r < |Roles| && 0 <= c && c + k <= |Roles[r]|
    ensures Run(Typer(r, c, false), k) == Typer(r, c + k, false)
    decreases k
  {
    if k > 0 {
      assert Step(Typer(r, c, false)).next == Typer(r, c + 1, false);
      TypingPhase(r, c + 1, k - 1);
    }
  }

  /** Deleting from `c` characters: after `k` steps that leave at least one, `c - k` remain. */
  lemma {:induction false} DeletingPhase(r: int, c: int, k: nat)
    requires 0 <= r < |Roles| && c <= |Roles[r]| + 1 && 1 <= c - k
    ensures Run(Typer(r, c, true), k) == Typer(r, c - k, true)
    decreases k
  {
    if k > 0 {
      assert Step(Typer(r, c, true)).next == Typer(r, c - 1, true);
      DeletingPhase(r, c - 1, k - 1);
    }
  }

  lemma {:induction false} RunAdd(t: Typer, m: nat, n: nat)
    requires Consistent(t)
    ensures Run(t, m + n) == Run(Run(t, m), n)
    decreases m
  {
    if m > 0 {
      RunAdd(Step(t).next, m - 1, n);
    }
  }

  /**
   * One full cycle: starting to type role `r`, after `2 * (len + 1)` steps the
   * effect starts typing the next role, `len` being the length of role `r`.
   */
  lemma FullCycle(r: int)
    requires 0 <= r < |Roles|
    ensures Run(Typer(r, 0, false), 2 * (|Roles[r]| + 1)) == Typer((r + 1) % |Roles|, 0, false)
  {
    var len := |Roles[r]|;
    TypingPhase(r, 0, len);
    assert Step(Typer(r, len, false)).next == Typer(r, len + 1, true);
    RunAdd(Typer(r, 0, false), len, 1);
    DeletingPhase(r, len + 1, len);
    RunAdd(Typer(r, 0, false), len + 1, len);
    assert Step(Typer(r, 1, true)).next == Typer((r + 1) % |Roles|, 0, false);
    RunAdd(Typer(r, 0, false), 2 * len + 1, 1);
  }

  /**
   * The effect on the `typing` element. `pending` is the delay of the step
   * scheduled with `setTimeout` (`timeoutId`), `None` when none is scheduled;
   * `text` is the element's text; `hasElement` says whether the element exists.
   */
  class TypingEffect {
    const hasElement: bool
    var roleIndex: int
    var charIndex: int
    var isDeleting: bool
    var isPaused: bool
    var pending: Option<nat>
    var text: string

    function State(): Typer
      reads this
    {
      Typer(roleIndex, charIndex, isDeleting)
    }

    ghost predicate Valid()
      reads this
    {
      Consistent(State())
    }

    constructor (hasElement: bool)
      ensures Valid() && this.hasElement == hasElement
      ensures State() == Initial && !isPaused && pending == None && text == ""
    {
      this.hasElement := hasElement;
      roleIndex := 0;
      charIndex := 0;
      isDeleting := false;
      isPaused := false;
      pending := None;
      text := "";
    }

    /** Resets to the first role and takes a step; nothing without the element. */
    method Start()
      requires Valid()
      modifies this
      ensures Valid()
      ensures !hasElement ==> State() == old(State()) && isPaused == old(isPaused) && pending == old(pending) && text == old(text)
      ensures hasElement ==>
        var r := Step(Initial);
        State() == r.next && !isPaused && text == r.shown && pending == Some(r.delay)
    {
      if !hasElement {
        return;
      }
      roleIndex := 0;
      charIndex := 0;
      isDeleting := false;
      isPaused := false;
      Type();
    }

    /** `init` starts the effect when its element exists. */
    method Init()
      requires Valid()
      modifies this
      ensures Valid()
      ensures !hasElement ==> State() == old(State()) && isPaused == old(isPaused) && pending == old(pending) && text == old(text)
      ensures hasElement ==>
        var r := Step(Initial);
        State() == r.next && !isPaused && text == r.shown && pending == Some(r.delay)
    {
      if !hasElement {
        return;
      }
      Start();
    }

    /** Pauses and cancels the pending step. */
    method Pause()
      requires Valid()
      modifies this
      ensures Valid() && isPaused && pending == None
      ensures State() == old(State()) && text == old(text)
    {
      isPaused := true;
      if pending.Some? {
        pending := None;
      }
    }

    /** Resumes with a step, only when paused. */
    method Resume()
      requires Valid()
      modifies this
      ensures Valid()
      ensures !old(isPaused) ==> State() == old(State()) && isPaused == old(isPaused) && pending == old(pending) && text == old(text)
      ensures old(isPaused) && hasElement ==>
        var r := Step(old(State()));
        State() == r.next && !isPaused && text == r.shown && pending == Some(r.delay)
      ensures old(isPaused) && !hasElement ==>
        State() == old(State()) && !isPaused && pending == old(pending) && text == old(text)
    {
      if isPaused {
        isPaused := false;
        Type();
      }
    }

    /**
     * `type()`: one step when not paused and the element exists, showing its
     * text and scheduling the next step after its delay; otherwise nothing.
     */
    method Type()
      requires Valid()
      modifies this
      ensures Valid() && isPaused == old(isPaused)
      ensures old(isPaused) || !hasElement ==> State() == old(State()) && pending == old(pending) && text == old(text)
      ensures !old(isPaused) && hasElement ==>
        var r := Step(old(State()));
        State() == r.next && text == r.shown && pending == Some(r.delay)
    {
      if isPaused || !hasElement {
        return;
      }
      var current := Roles[roleIndex];
      if isDeleting {
        text := Substring0(current, charIndex);
        charIndex := charIndex - 1;
      } else {
        text := Substring0(current, charIndex);
        charIndex := charIndex + 1;
      }
      var typeSpeed := if isDeleting then DeleteDelay else TypeDelay;
      if isDeleting && charIndex == 0 {
        isDeleting := false;
        roleIndex := (roleIndex + 1) % |Roles|;
        typeSpeed := NextRoleDelay;
      } else if !isDeleting && charIndex == |current| + 1 {
        isDeleting := true;
        typeSpeed := FullyTypedDelay;
      }
      pending := Some(typeSpeed);
    }

    /** Cancels the pending step and leaves the effect paused. */
    method Destroy()
      requires Valid()
      modifies this
      ensures Valid() && isPaused && pending == None
      ensures State() == old(State()) && text == old(text)
    {
      if pending.Some? {
        pending := None;
      }
      isPaused := true;
    }
  }

  /** Pausing then stepping changes nothing; resuming takes the step. */
  method PauseScenario()
  {
    var e := new TypingEffect(true);
    e.Start();
    assert e.text == "" && e.State() == Typer(0, 1, false) && e.pending == Some(TypeDelay);
    e.Pause();
    e.Type();
    assert e.State() == Typer(0, 1, false) && e.pending == None;
    e.Resume();
    assert e.text == "G" && e.State() == Typer(0, 2, false);
  }
}
