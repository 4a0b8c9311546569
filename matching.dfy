/**
 * Committing typed text (the submit branch of TextField.process_key): bottles are tried in
 * list order and the first exact match wins.
 */
module Matching {
  import opened Wrappers
  import opened Seqs
  import opened Bottles

  /** One turn of the commit loop: an in-view bottle is matched with `leave` set. */
  function Attempt(b: BottleState, text: string): (res: (BottleState, bool))
    ensures res.1 <==> Hit(b, text)
    ensures res.0 == (if b.InView() then b.Matched(text, true).0 else b)
  {
    if b.InView() then b.Matched(text, true) else (b, false)
  }

  /** The bottles after a commit of `text`: tried in order, stopping after the first success. */
  function Commit(bs: seq<BottleState>, text: string): (r: seq<BottleState>)
    ensures |r| == |bs|
  {
    if bs == [] then []
    else
      var (b, ok) := Attempt(bs[0], text);
      if ok then [b] + bs[1..] else [b] + Commit(bs[1..], text)
  }

  /** A commit from bottle `i` on: bottle `i` is attempted, and the rest only if it failed. */
  lemma CommitFrom(bs: seq<BottleState>, text: string, i: nat)
    requires i < |bs|
    ensures var (b, ok) := Attempt(bs[i], text);
      Commit(bs[i..], text) == [b] + (if ok then bs[i + 1..] else Commit(bs[i + 1..], text))
  {
    assert bs[i..][0] == bs[i] && bs[i..][1..] == bs[i + 1..];
  }

  /**
   * One turn of a commit loop that has committed `s0[..i]` into `cur`: `next` differs from
   * `cur` only at `i`, where it holds the attempt's result.
   */
  lemma CommitLoopStep(s0: seq<BottleState>, cur: seq<BottleState>, next: seq<BottleState>, text: string, i: nat)
    requires i < |s0| == |cur| == |next|
    requires Commit(s0, text) == cur[..i] + Commit(s0[i..], text)
    requires forall j :: i <= j < |s0| ==> cur[j] == s0[j]
    requires next[i] == Attempt(s0[i], text).0
    requires forall j :: 0 <= j < |s0| && j != i ==> next[j] == cur[j]
    ensures Attempt(s0[i], text).1 ==> next == Commit(s0, text)
    ensures !Attempt(s0[i], text).1 ==>
      && Commit(s0, text) == next[..i + 1] + Commit(s0[i + 1..], text)
      && forall j :: i + 1 <= j < |s0| ==> next[j] == s0[j]
  {
    CommitFrom(s0, text, i);
    if Attempt(s0[i], text).1 {
      LoopStepHit(s0, cur, next, text, i);
    } else {
      LoopStepMiss(s0, cur, next, text, i);
    }
  }

  /** A commit loop that has tried every bottle without a hit has committed them all. */
  lemma CommitExhausted(s0: seq<BottleState>, cur: seq<BottleState>, text: string)
    requires |cur| == |s0|
    requires Commit(s0, text) == cur[..|s0|] + Commit(s0[|s0|..], text)
    ensures cur == Commit(s0, text)
  {
    assert cur[..|s0|] == cur && s0[|s0|..] == [];
  }

  /** The loop step when bottle `i` is hit: the commit is complete. */
  lemma LoopStepHit(s0: seq<BottleState>, cur: seq<BottleState>, next: seq<BottleState>, text: string, i: nat)
    requires i < |s0| == |cur| == |next|
    requires Commit(s0, text) == cur[..i] + ([Attempt(s0[i], text).0] + s0[i + 1..])
    requires forall j :: i <= j < |s0| ==> cur[j] == s0[j]
    requires next[i] == Attempt(s0[i], text).0
    requires forall j :: 0 <= j < |s0| && j != i ==> next[j] == cur[j]
    ensures next == Commit(s0, text)
  {
    var c := Commit(s0, text);
    forall j | 0 <= j < |s0| ensures next[j] == c[j] {
      if j < i {
        assert c[j] == cur[j];
      } else if j > i {
        assert c[j] == s0[j];
      }
    }
  }

  /** The loop step when bottle `i` is missed: the committed prefix grows by one. */
  lemma LoopStepMiss(s0: seq<BottleState>, cur: seq<BottleState>, next: seq<BottleState>, text: string, i: nat)
    requires i < |s0| == |cur| == |next|
    requires Commit(s0, text) == cur[..i] + ([Attempt(s0[i], text).0] + Commit(s0[i + 1..], text))
    requires forall j :: i <= j < |s0| ==> cur[j] == s0[j]
    requires next[i] == Attempt(s0[i], text).0
    requires forall j :: 0 <= j < |s0| && j != i ==> next[j] == cur[j]
    ensures Commit(s0, text) == next[..i + 1] + Commit(s0[i + 1..], text)
    ensures forall j :: i + 1 <= j < |s0| ==> next[j] == s0[j]
  {
    var b := Attempt(s0[i], text).0;
    var rest := Commit(s0[i + 1..], text);
    assert cur[..i] + ([b] + rest) == (cur[..i] + [b]) + rest;
    assert next[..i + 1] == cur[..i] + [b] by {
      forall j | 0 <= j <= i ensures next[..i + 1][j] == (cur[..i] + [b])[j] {
        if j < i {
          assert (cur[..i] + [b])[j] == cur[j];
        }
      }
    }
  }

  /** A bottle that a commit of `text` would remove. */
  predicate Hit(b: BottleState, text: string)
  {
    b.InView() && b.HasWord() && b.word == text
  }

  /** The index of the bottle a commit of `text` removes, if any. */
  function FirstHit(bs: seq<BottleState>, text: string): Option<nat>
  {
    FirstIndex(bs, (b: BottleState) => Hit(b, text))
  }

  /** A commit reaches bottle `j`: it is in view and no earlier bottle was removed. */
  predicate Reached(bs: seq<BottleState>, text: string, j: nat)
  {
    j < |bs| && bs[j].InView() && (FirstHit(bs, text).None? || j <= FirstHit(bs, text).value)
  }

  lemma {:induction false} FirstHitStep(bs: seq<BottleState>, text: string)
    requires bs != []
    ensures FirstHit(bs, text) ==
      if Hit(bs[0], text) then Some(0)
      else match FirstHit(bs[1..], text) case None => None case Some(k) => Some(k + 1)
  {
  }

  /**
   * Bottle by bottle, a commit matches exactly the in-view bottles up to and including the
   * first hit and leaves every other bottle as it was.
   */
  lemma {:induction false} CommitAt(bs: seq<BottleState>, text: string)
    ensures forall j :: 0 <= j < |bs| ==>
      Commit(bs, text)[j] == if Reached(bs, text, j) then bs[j].Matched(text, true).0 else bs[j]
  {
    if bs != [] {
      var tail := bs[1..];
      FirstHitStep(bs, text);
      CommitAt(tail, text);
      var (b, ok) := Attempt(bs[0], text);
      forall j | 0 <= j < |bs|
        ensures Commit(bs, text)[j] == if Reached(bs, text, j) then bs[j].Matched(text, true).0 else bs[j]
      {
        if j > 0 {
          assert bs[j] == tail[j - 1];
          if !ok {
            assert Commit(bs, text)[j] == Commit(tail, text)[j - 1];
            assert Reached(bs, text, j) == Reached(tail, text, j - 1);
          }
        }
      }
    }
  }

  /**
   * The word of bottle `j` is typed out by a commit exactly when `j` is the first in-view
   * bottle still holding `text`; at most one bottle loses its word.
   */
  lemma CommitRemoves(bs: seq<BottleState>, text: string)
    ensures forall j :: 0 <= j < |bs| ==>
      (Commit(bs, text)[j].HasWord() <==> bs[j].HasWord() && FirstHit(bs, text) != Some(j))
    ensures forall j :: 0 <= j < |bs| ==>
      Commit(bs, text)[j].word == bs[j].word && Commit(bs, text)[j].x == bs[j].x
  {
    CommitAt(bs, text);
    forall j | 0 <= j < |bs|
      ensures Commit(bs, text)[j].HasWord() <==> bs[j].HasWord() && FirstHit(bs, text) != Some(j)
    {
      RemovesAt(bs, text, j);
    }
  }

  /** `CommitRemoves` for one bottle, from what `CommitAt` says of it. */
  lemma RemovesAt(bs: seq<BottleState>, text: string, j: nat)
    requires j < |bs|
    requires Commit(bs, text)[j] == if Reached(bs, text, j) then bs[j].Matched(text, true).0 else bs[j]
    ensures Commit(bs, text)[j].HasWord() <==> bs[j].HasWord() && FirstHit(bs, text) != Some(j)
  {
    var h := FirstHit(bs, text);
    if h == Some(j) {
      assert Hit(bs[j], text);
    } else if Reached(bs, text, j) && bs[j].HasWord() {
      assert !Hit(bs[j], text);
    }
  }

  /** Typing the prefix "ca" highlights two letters of "cat" and "car" and none of "dog". */
  lemma PrefixExample()
    ensures Highlight("cat", "ca") == 2 && Highlight("car", "ca") == 2 && Highlight("dog", "ca") == 0
  {
    assert "ca"[0] != "dog"[0];
  }
}
