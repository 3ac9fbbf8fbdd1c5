/** The generic typewriter hook: it reveals `text` one character per
    interval tick and starts over from the empty string whenever `text` or
    `speed` changes. */
module Typewriter {

  /** The hook's inputs, the text it shows, the index its interval callback
      keeps, and whether that interval is still running. */
  datatype Hook = Hook(text: string, speed: int, displayed: string, i: nat, running: bool)

  /** The shown text is always the first `i` characters of `text`. */
  predicate Inv(h: Hook)
  {
    h.i <= |h.text| && h.displayed == h.text[..h.i]
  }

  /** The effect run for new inputs: the shown text is reset to empty, the
      index to 0, and a fresh interval starts (the previous one is
      cleared). */
  function Start(text: string, speed: int): (h: Hook)
    ensures Inv(h) && h.displayed == "" && h.running
    ensures h.text == text && h.speed == speed
  {
    Hook(text, speed, "", 0, true)
  }

  /** A render with inputs `text` and `speed`: the effect runs again exactly
      when one of them differs from the previous render's. */
  function Rerender(h: Hook, text: string, speed: int): (r: Hook)
    ensures text != h.text || speed != h.speed ==> r.displayed == "" && r.i == 0 && r.running
    ensures text == h.text && speed == h.speed ==> r == h
    ensures r.text == text && r.speed == speed
    ensures Inv(h) ==> Inv(r)
  {
    if text == h.text && speed == h.speed then h else Start(text, speed)
  }

  /** One interval callback: append the next character while one remains,
      otherwise stop the interval. */
  function Step(h: Hook): (r: Hook)
    ensures !h.running ==> r == h
    ensures h.running && h.i < |h.text| ==>
              r.displayed == h.displayed + [h.text[h.i]] && r.i == h.i + 1 && r.running
    ensures h.running && h.i >= |h.text| ==> r == h.(running := false)
    ensures r.text == h.text && r.speed == h.speed
    ensures Inv(h) ==> Inv(r)
  {
    if !h.running then h
    else if h.i < |h.text| then h.(displayed := h.displayed + [h.text[h.i]], i := h.i + 1)
    else h.(running := false)
  }

  function Steps(h: Hook, k: nat): (r: Hook)
    ensures Inv(h) ==> Inv(r)
  {
    if k == 0 then h else Step(Steps(h, k - 1))
  }

  /** While characters remain, `k` ticks show `k` more of them. */
  lemma {:induction false} StepsReveal(h: Hook, k: nat)
    requires Inv(h) && h.running && h.i + k <= |h.text|
    ensures Steps(h, k) == h.(displayed := h.text[..h.i + k], i := h.i + k)
  {
    if k > 0 {
      StepsReveal(h, k - 1);
      assert h.text[..h.i + k - 1] + [h.text[h.i + k - 1]] == h.text[..h.i + k];
    }
  }

  /** With the interval stopped, ticks change nothing. */
  lemma {:induction false} StoppedStaysPut(h: Hook, k: nat)
    requires !h.running
    ensures Steps(h, k) == h
  {
    if k > 0 {
      StoppedStaysPut(h, k - 1);
    }
  }

  /** From a start, after `k` ticks the hook shows the first `k` characters
      (all of them once `k` reaches the length), never more; the interval
      runs until the tick after the last character, and after that stays
      stopped. */
  lemma RevealFromStart(text: string, speed: int, k: nat)
    ensures var h := Steps(Start(text, speed), k);
            h.displayed == text[..if k <= |text| then k else |text|] &&
            |h.displayed| <= |text| &&
            (h.running <==> k <= |text|)
  {
    var s := Start(text, speed);
    if k <= |text| {
      StepsReveal(s, k);
    } else {
      StepsReveal(s, |text|);
      var stopped := Steps(s, |text| + 1);
      assert stopped == s.(displayed := text[..|text|], i := |text|, running := false);
      StoppedStaysPut(stopped, k - |text| - 1);
      StepsAdd(s, |text| + 1, k - |text| - 1);
    }
  }

  /** Ticking `a` times then `b` times is ticking `a + b` times. */
  lemma {:induction false} StepsAdd(h: Hook, a: nat, b: nat)
    ensures Steps(Steps(h, a), b) == Steps(h, a + b)
  {
    if b > 0 {
      StepsAdd(h, a, b - 1);
    }
  }

  /** The round trip: `|text|` ticks after a start show `text` exactly. */
  lemma RevealRoundTrip(text: string, speed: int)
    ensures Steps(Start(text, speed), |text|).displayed == text
  {
    RevealFromStart(text, speed, |text|);
    assert text[..|text|] == text;
  }

  /** The hook as an object: the inputs of the last render, the shown text,
      and the interval callback's index and liveness. */
  class TypewriterHook {
    var text: string
    var speed: int
    var displayedText: string
    var i: nat
    var running: bool

    function State(): Hook
      reads this
    {
      Hook(text, speed, displayedText, i, running)
    }

    /** Mounting runs the effect for the first inputs. */
    constructor (text: string, speed: int)
      ensures State() == Start(text, speed)
    {
      this.text, this.speed := text, speed;
      displayedText := "";
      i := 0;
      running := true;
    }

    method Render(newText: string, newSpeed: int)
      modifies this
      ensures State() == Rerender(old(State()), newText, newSpeed)
    {
      if newText != text || newSpeed != speed {
        text, speed := newText, newSpeed;
        displayedText := "";
        i := 0;
        running := true;
      }
    }

    method Tick()
      modifies this
      ensures State() == Step(old(State()))
    {
      if running {
        if i < |text| {
          displayedText := displayedText + [text[i]];
          i := i + 1;
        } else {
          running := false;
        }
      }
    }
  }
}
