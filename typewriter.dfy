// The love-letter reveal: when each line starts, how a line's interval
// reveals it one character per tick, and when the signature appears.
// All times are whole milliseconds after the typewriter starts, and each is the
// time a timer is due; a timer that fires late is not modelled.
module Typewriter {

  /** Milliseconds between two ticks of a line's interval. */
  const CharInterval: nat := 50
  /** Pause the schedule leaves after a line's characters before the next line starts. */
  const LinePause: nat := 500
  /** The signature is shown this long after the last line's interval ends. */
  const SignaturePause: nat := 500

  datatype Option<T> = None | Some(value: T)

  /** The time a line of text claims in the schedule. */
  function Span(text: string): nat
  {
    |text| * CharInterval + LinePause
  }

  /** The spans of all the given lines, added up. */
  function TotalSpan(texts: seq<string>): nat
  {
    if texts == [] then 0 else Span(texts[0]) + TotalSpan(texts[1..])
  }

  /** Line `i` starts once every line before it has had its span. */
  function StartOf(texts: seq<string>, i: nat): nat
    requires i <= |texts|
  {
    TotalSpan(texts[..i])
  }

  /** Adding a line at the end adds its span. */
  lemma {:induction false} TotalSpanSnoc(texts: seq<string>, t: string)
    ensures TotalSpan(texts + [t]) == TotalSpan(texts) + Span(t)
  {
    if texts == [] {
      assert [t][1..] == [];
    } else {
      assert (texts + [t])[1..] == texts[1..] + [t];
      TotalSpanSnoc(texts[1..], t);
    }
  }

  /** Each line starts exactly one span after the line before it. */
  lemma NextStart(texts: seq<string>, i: nat)
    requires i < |texts|
    ensures StartOf(texts, i + 1) == StartOf(texts, i) + |texts[i]| * CharInterval + LinePause
  {
    assert texts[..i + 1] == texts[..i] + [texts[i]];
    TotalSpanSnoc(texts[..i], texts[i]);
  }

  /** The loop of the typewriter, one turn per line of the letter: the line is prepared for
      typing, flagged when it is the letter's last line, and given its start delay, which then
      grows by the line's span. */
  method StartTypewriter(texts: seq<string>) returns (starts: seq<nat>, lines: seq<TypewriterLine>)
    ensures |starts| == |texts| && |lines| == |texts|
    ensures forall i :: 0 <= i < |texts| ==> starts[i] == StartOf(texts, i)
    ensures forall i :: 0 <= i < |texts| ==>
      fresh(lines[i]) && lines[i].Valid() && lines[i].text == texts[i] &&
      (lines[i].isLast <==> i == |texts| - 1) &&
      lines[i].shown == [] && lines[i].running && lines[i].ticks == 0
    ensures forall i, j :: 0 <= i < j < |texts| ==> lines[i] != lines[j]
  {
    var delay: nat := 0;
    starts := [];
    lines := [];
    var i := 0;
    while i < |texts|
      invariant 0 <= i <= |texts|
      invariant |starts| == i && |lines| == i
      invariant delay == StartOf(texts, i)
      invariant forall j :: 0 <= j < i ==> starts[j] == StartOf(texts, j)
      invariant forall j :: 0 <= j < i ==>
        fresh(lines[j]) && lines[j].Valid() && lines[j].text == texts[j] &&
        (lines[j].isLast <==> j == |texts| - 1) &&
        lines[j].shown == [] && lines[j].running && lines[j].ticks == 0
      invariant forall j, k :: 0 <= j < k < i ==> lines[j] != lines[k]
    {
      var line := new TypewriterLine(texts[i], i == |texts| - 1);
      lines := lines + [line];
      starts := starts + [delay];
      NextStart(texts, i);
      delay := delay + |texts[i]| * CharInterval + LinePause;
      i := i + 1;
    }
  }

  /** Tick `t` (counting from 1) of line `i`'s interval is due at this time. */
  function TickAt(texts: seq<string>, i: nat, t: nat): nat
    requires i < |texts|
  {
    StartOf(texts, i) + t * CharInterval
  }

  /** A line's interval reveals one character per tick and clears itself on the tick after the last. */
  function LastTick(text: string): nat
  {
    |text| + 1
  }

  /** When the signature is due to appear: after the pause that follows the end of the last line's
      interval; a letter with no lines never shows it. */
  function SignatureAt(texts: seq<string>): Option<nat>
  {
    if texts == [] then None
    else Some(TickAt(texts, |texts| - 1, LastTick(texts[|texts| - 1])) + SignaturePause)
  }

  /** Start delays never decrease from one line to a later one. */
  lemma {:induction false} StartsGrow(texts: seq<string>, i: nat, j: nat)
    requires i <= j <= |texts|
    ensures StartOf(texts, i) <= StartOf(texts, j)
    decreases j - i
  {
    if i < j {
      NextStart(texts, i);
      StartsGrow(texts, i + 1, j);
    }
  }

  /** Lines are revealed one after another: every tick of a line, including the one that clears
      its interval, is due before any tick of a later line. */
  lemma LinesInSequence(texts: seq<string>, i: nat, j: nat, t: nat, t': nat)
    requires i < j < |texts|
    requires t <= LastTick(texts[i]) && 1 <= t'
    ensures TickAt(texts, i, t) < TickAt(texts, j, t')
  {
    NextStart(texts, i);
    StartsGrow(texts, i + 1, j);
  }

  /** The signature is due after every tick of every line is due. */
  lemma SignatureComesLast(texts: seq<string>, i: nat, t: nat)
    requires i < |texts| && t <= LastTick(texts[i])
    ensures SignatureAt(texts).Some?
    ensures SignatureAt(texts).value ==
      TickAt(texts, |texts| - 1, LastTick(texts[|texts| - 1])) + SignaturePause
    ensures TickAt(texts, i, t) < SignatureAt(texts).value
  {
    var last := |texts| - 1;
    if i < last {
      LinesInSequence(texts, i, last, t, LastTick(texts[last]));
    }
  }

  /** The text a line shows after `ticks` ticks of its interval: each tick appends the next
      character of `text` while some remain. */
  function Revealed(text: string, ticks: nat): string
  {
    if ticks == 0 then []
    else
      var s := Revealed(text, ticks - 1);
      if |s| < |text| then s + [text[|s|]] else s
  }

  function Min(a: nat, b: nat): nat
  {
    if a < b then a else b
  }

  /** After k ticks a line shows the first min(k, |text|) characters of its text. */
  lemma {:induction false} RevealedIsPrefix(text: string, ticks: nat)
    ensures Revealed(text, ticks) == text[..Min(ticks, |text|)]
  {
    if ticks > 0 {
      RevealedIsPrefix(text, ticks - 1);
      if ticks - 1 < |text| {
        assert text[..ticks - 1] + [text[ticks - 1]] == text[..ticks];
      }
    }
  }

  /** After as many ticks as it has characters, a line shows its whole text. */
  lemma RevealedInFull(text: string, ticks: nat)
    requires ticks >= |text|
    ensures Revealed(text, ticks) == text
  {
    RevealedIsPrefix(text, ticks);
    assert text[..|text|] == text;
  }

  /** One line of the letter while its interval runs: the hidden original text, what the element
      shows so far, and the index of the next character. */
  class TypewriterLine {
    const text: string
    const isLast: bool
    var shown: string
    var charIndex: nat
    var running: bool
    ghost var ticks: nat

    ghost predicate Valid()
      reads this
    {
      shown == Revealed(text, ticks) && charIndex == |shown| &&
      (running <==> ticks <= |text|) && ticks <= LastTick(text)
    }

    /** The line as the typewriter prepares it: emptied, with no character revealed yet. */
    constructor (text: string, isLast: bool)
      ensures Valid()
      ensures this.text == text && this.isLast == isLast
      ensures shown == [] && charIndex == 0 && running && ticks == 0
    {
      this.text := text;
      this.isLast := isLast;
      shown := [];
      charIndex := 0;
      running := true;
      ticks := 0;
    }

    /** One tick of the 50 ms interval. Reveals the next character, or, when none is left, clears
        the interval and reports whether this line's end schedules the signature. */
    method Tick() returns (showSignature: bool)
      requires Valid() && running
      modifies this`shown, this`charIndex, this`running, this`ticks
      ensures Valid() && ticks == old(ticks) + 1
      ensures shown == text[..Min(ticks, |text|)]
      ensures !running ==> ticks == LastTick(text)
      ensures old(charIndex) < |text| ==>
        shown == old(shown) + [text[old(charIndex)]] && charIndex == old(charIndex) + 1 &&
        running && !showSignature
      ensures old(charIndex) >= |text| ==>
        shown == old(shown) && !running && showSignature == isLast
    {
      RevealedIsPrefix(text, ticks);
      if charIndex < |text| {
        shown := shown + [text[charIndex]];
        charIndex := charIndex + 1;
        showSignature := false;
      } else {
        running := false;
        showSignature := isLast;
      }
      ticks := ticks + 1;
      RevealedIsPrefix(text, ticks);
    }
  }
}
