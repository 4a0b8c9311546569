/**
 * One word-carrying bottle (class Bottle in shipwrecked.py): its abstract state as a value,
 * the pure transitions on that value, and the mutable object whose methods follow them.
 */
module Bottles {
  import opened Wrappers

  /** The x coordinate a bottle is given when it enters the play field. */
  const EntryX: real := 1170.0
  /** The x coordinate of a bottle that has not yet been spawned (off screen, right). */
  const WaitingX: real := 1400.0

  /** `w` is a prefix of `word`, character by character. */
  predicate IsPrefix(w: string, word: string)
  {
    |w| <= |word| && forall i :: 0 <= i < |w| ==> w[i] == word[i]
  }

  /** How many leading characters of `word` are highlighted while `w` is typed. */
  function Highlight(word: string, w: string): (n: nat)
    ensures n <= |word|
    ensures IsPrefix(w, word) ==> n == |w|
    ensures !IsPrefix(w, word) ==> n == 0
  {
    if |w| > |word| then 0
    else if word[..|w|] == w then |w|
    else 0
  }

  /**
   * The state of a bottle: `removed` is 0 while the word is still to be typed and becomes
   * 1 when it is typed; `start`/`saved` account for the time it has been moving.
   */
  datatype BottleState = BottleState(
    word: string,
    x: real,
    highlight: nat,
    removed: nat,
    start: Option<real>,
    paused: bool,
    saved: real)
  {
    /** The bottle is on the visible part of the sea. */
    predicate InView() { -120.0 < x < 1171.0 }

    /** The bottle has been spawned (it is in view or has drifted past the left edge). */
    predicate Used() { x < 1171.0 }

    /** The bottle's word has not been typed yet. */
    predicate HasWord() { removed == 0 }

    /**
     * The bottle still counts as a word to type: in view with its word, or not yet spawned.
     */
    predicate Pending() { (InView() && HasWord()) || !Used() }

    /** Brings the bottle into view at `now` with no time credited. */
    function MovedInView(now: real): (b: BottleState)
      ensures b.InView() && b.Used() && b.x == EntryX
      ensures b.start == Some(now) && b.saved == 0.0
      ensures b.word == word && b.highlight == highlight && b.removed == removed && b.paused == paused
    {
      this.(x := EntryX, start := Some(now), saved := 0.0)
    }

    /** Resumes the bottle; only a paused bottle gets a new start mark. */
    function Played(now: real): (b: BottleState)
      ensures !b.paused
      ensures !paused ==> b == this
      ensures paused ==> b.start == Some(now)
      ensures b.word == word && b.x == x && b.highlight == highlight && b.removed == removed
      ensures b.saved == saved
    {
      if paused then this.(paused := false, start := Some(now)) else this
    }

    /**
     * Pauses the bottle, crediting the time since its start mark once; pausing a paused
     * bottle changes nothing.
     */
    function Paused(now: real): (b: BottleState)
      ensures b.paused
      ensures paused ==> b == this
      ensures !paused ==> b.saved == saved + (if start.Some? then now - start.value else 0.0)
      ensures b.word == word && b.x == x && b.highlight == highlight && b.removed == removed
      ensures b.start == start
    {
      if paused then this
      else this.(paused := true, saved := if start.Some? then saved + (now - start.value) else saved)
    }

    /**
     * Matches typed text `w` against the word. A typed-out or out-of-view bottle is left
     * alone and reports no match. Otherwise the highlight follows the prefix rule, and with
     * `leave` set an exact match starts the removal and reports success.
     */
    function Matched(w: string, leave: bool): (res: (BottleState, bool))
      ensures (removed != 0 || !InView()) ==> res == (this, false)
      ensures removed == 0 && InView() ==>
        && res.0 == this.(highlight := res.0.highlight, removed := res.0.removed)
        && res.0.highlight == Highlight(word, w)
        && (res.1 <==> leave && w == word)
        && res.0.removed == (if res.1 then 1 else 0)
    {
      if removed != 0 || !InView() then (this, false)
      else
        var b := this.(highlight := Highlight(word, w));
        if word == w && leave then (b.(removed := removed + 1), true) else (b, false)
    }
  }

  /** A bottle as first built for a level: off screen, paused, never started. */
  function Fresh(word: string): (b: BottleState)
    ensures !b.Used() && !b.InView() && b.HasWord() && b.paused && b.start == None
    ensures b.word == word && b.highlight == 0 && b.saved == 0.0
  {
    BottleState(word, WaitingX, 0, 0, None, true, 0.0)
  }

  /** Fresh bottles for a list of words, in order. */
  function FreshAll(words: seq<string>): (r: seq<BottleState>)
    ensures |r| == |words| && forall i :: 0 <= i < |words| ==> r[i] == Fresh(words[i])
  {
    seq(|words|, i requires 0 <= i < |words| => Fresh(words[i]))
  }

  /** Every bottle paused at `now`. */
  function PauseAll(bs: seq<BottleState>, now: real): (r: seq<BottleState>)
    ensures |r| == |bs| && forall i :: 0 <= i < |bs| ==> r[i] == bs[i].Paused(now)
  {
    seq(|bs|, i requires 0 <= i < |bs| => bs[i].Paused(now))
  }

  /** Every bottle resumed at `now`. */
  function PlayAll(bs: seq<BottleState>, now: real): (r: seq<BottleState>)
    ensures |r| == |bs| && forall i :: 0 <= i < |bs| ==> r[i] == bs[i].Played(now)
  {
    seq(|bs|, i requires 0 <= i < |bs| => bs[i].Played(now))
  }

  /** A second pause of the whole fleet, at whatever time, changes nothing. */
  lemma PauseAllIdempotent(bs: seq<BottleState>, t1: real, t2: real)
    ensures PauseAll(PauseAll(bs, t1), t2) == PauseAll(bs, t1)
  {
  }

  /**
   * A bottle that is resumed at `t0` and paused at `t1`, and then paused again, is credited
   * exactly `t1 - t0`.
   */
  lemma PlayPauseCredit(b: BottleState, t0: real, t1: real, t2: real)
    requires b.paused
    ensures b.Played(t0).Paused(t1).Paused(t2).saved == b.saved + (t1 - t0)
  {
  }

  /** The states of a list of bottle objects, in order. */
  function StatesOf(bs: seq<Bottle>): (r: seq<BottleState>)
    reads bs
    ensures |r| == |bs| && forall i :: 0 <= i < |bs| ==> r[i] == bs[i].State()
  {
    seq(|bs|, i requires 0 <= i < |bs| reads bs => bs[i].State())
  }

  class Bottle {
    const word: string
    var x: real
    var highlight: nat
    var removed: nat
    var start: Option<real>
    var paused: bool
    var saved: real

    function State(): BottleState
      reads this
    {
      BottleState(word, x, highlight, removed, start, paused, saved)
    }

    predicate InView() reads this { State().InView() }
    predicate Used() reads this { State().Used() }
    predicate HasWord() reads this { State().HasWord() }

    /** A new bottle for `word`; the constructor ends by pausing it. */
    constructor (word: string)
      ensures State() == Fresh(word)
    {
      this.word := word;
      x := WaitingX;
      highlight := 0;
      start := None;
      paused := false;
      saved := 0.0;
      removed := 0;
      new;
      Pause(0.0);
    }

    method MoveInView(now: real)
      modifies this
      ensures State() == old(State()).MovedInView(now)
    {
      start := Some(now);
      x := EntryX;
      saved := 0.0;
    }

    method Play(now: real)
      modifies this
      ensures State() == old(State()).Played(now)
    {
      if paused {
        paused := false;
        start := Some(now);
      }
    }

    method Pause(now: real)
      modifies this
      ensures State() == old(State()).Paused(now)
    {
      if !paused {
        paused := true;
        if start != None {
          saved := saved + (now - start.value);
        }
      }
    }

    /** Returns false where the source returns None (a removed or out-of-view bottle). */
    method Match(w: string, leave: bool) returns (ok: bool)
      modifies this
      ensures (State(), ok) == old(State()).Matched(w, leave)
    {
      if removed != 0 || !InView() {
        return false;
      }
      if |w| > |word| {
        highlight := 0;
      } else if word[..|w|] == w {
        highlight := |w|;
      } else {
        highlight := 0;
      }
      if word == w && leave {
        removed := removed + 1;
        return true;
      }
      return false;
    }
  }
}
