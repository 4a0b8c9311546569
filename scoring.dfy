/**
 * End-of-level scoring (Level.end_level): how many words were typed, the message listing
 * them with each run of missed words shown once as "... ", and the 90% leniency rule.
 */
module Scoring {
  import opened Wrappers
  import opened Seqs
  import opened Bottles
  import opened Matching

  /** One entry of the miss list: a typed word, or `None` for a missed bottle. */
  type Mark = Option<string>

  predicate Typed(b: BottleState) { !b.HasWord() }

  predicate IsPending(b: BottleState) { b.Pending() }

  /** The number of bottles whose word has been typed. */
  function CorrectCount(bs: seq<BottleState>): nat
  {
    Count(bs, Typed)
  }

  /** A commit types at most one more word: exactly one when some bottle is hit. */
  lemma CommitTypesAtMostOne(bs: seq<BottleState>, text: string)
    ensures CorrectCount(Commit(bs, text)) ==
      CorrectCount(bs) + (if FirstHit(bs, text).Some? then 1 else 0)
  {
    CommitRemoves(bs, text);
    var c := Commit(bs, text);
    match FirstHit(bs, text)
    case None =>
      CountSame(bs, c, Typed);
    case Some(k) =>
      CountFlipOne(bs, c, Typed, k);
  }

  /** What the scoring loop appends for bottle `i`, given whether bottle `i - 1` was missed. */
  function Piece(bs: seq<BottleState>, i: nat): string
    requires i < |bs|
  {
    if bs[i].HasWord() then (if i > 0 && bs[i - 1].HasWord() then "" else "... ")
    else bs[i].word + " "
  }

  /** The message end_level builds, as the loop builds it, bottle by bottle. */
  function MissMessage(bs: seq<BottleState>): string
  {
    if bs == [] then "" else MissMessage(bs[..|bs| - 1]) + Piece(bs, |bs| - 1)
  }

  /** One more bottle extends the message by its piece and the count by its mark. */
  lemma TallyStep(bs: seq<BottleState>, i: nat)
    requires i < |bs|
    ensures MissMessage(bs[..i + 1]) == MissMessage(bs[..i]) + Piece(bs, i)
    ensures CorrectCount(bs[..i + 1]) == CorrectCount(bs[..i]) + (if bs[i].HasWord() then 0 else 1)
  {
    var p := bs[..i + 1];
    assert p[..i] == bs[..i];
    assert Piece(p, i) == Piece(bs, i);
  }

  /** Pausing every bottle keeps the words and which of them were typed. */
  lemma PauseAllMarks(bs: seq<BottleState>, now: real)
    ensures SameMarks(bs, PauseAll(bs, now))
  {
  }

  /** Two bottle lists that agree on every word and on which words were typed. */
  predicate SameMarks(a: seq<BottleState>, b: seq<BottleState>)
  {
    |a| == |b| && forall i :: 0 <= i < |a| ==> a[i].word == b[i].word && a[i].removed == b[i].removed
  }

  /** Scoring reads nothing but the words and which of them were typed. */
  lemma {:induction false} ScoreSameMarks(a: seq<BottleState>, b: seq<BottleState>)
    requires SameMarks(a, b)
    ensures MissMessage(a) == MissMessage(b) && CorrectCount(a) == CorrectCount(b)
    ensures |a| > 0 ==> Missed(a) == Missed(b)
  {
    CountSame(a, b, Typed);
    if a != [] {
      var n := |a|;
      ScoreSameMarks(a[..n - 1], b[..n - 1]);
      assert Piece(a, n - 1) == Piece(b, n - 1);
      assert (exists i :: 0 <= i < n && a[i].HasWord()) ==> (exists i :: 0 <= i < n && b[i].HasWord());
      assert (exists i :: 0 <= i < n && b[i].HasWord()) ==> (exists i :: 0 <= i < n && a[i].HasWord());
    }
  }

  /** The level is graded incomplete: some word was missed and fewer than 90% were typed. */
  predicate Missed(bs: seq<BottleState>)
    requires |bs| > 0
  {
    (exists i :: 0 <= i < |bs| && bs[i].HasWord())
    && (CorrectCount(bs) as real) / (|bs| as real) < 0.9
  }

  /** The leniency rule in whole numbers: incomplete iff a word is missing and 10c < 9n. */
  lemma MissedIff(bs: seq<BottleState>)
    requires |bs| > 0
    ensures Missed(bs) <==> CorrectCount(bs) < |bs| && 10 * CorrectCount(bs) < 9 * |bs|
  {
    CountAll(bs, Typed);
    DivBelow(CorrectCount(bs) as real, |bs| as real, 0.9);
    assert (exists i :: 0 <= i < |bs| && bs[i].HasWord()) <==> CorrectCount(bs) < |bs|;
  }

  /** The grade end_level computes from its tally (a miss, forgiven at a 90% ratio) is `Missed`. */
  lemma MissedByRatio(bs: seq<BottleState>, anyMissed: bool, typed: nat)
    requires |bs| > 0 && typed == CorrectCount(bs) && (anyMissed <==> typed < |bs|)
    ensures Missed(bs) == (anyMissed && !((typed as real) / (|bs| as real) >= 0.9))
  {
    MissedIff(bs);
    DivBelow(typed as real, |bs| as real, 0.9);
  }

  lemma DivBelow(c: real, n: real, t: real)
    requires n > 0.0
    ensures c / n < t <==> c < t * n
  {
    var q := c / n;
    assert c == q * n;
    assert t * n - c == (t - q) * n;
    if q < t {
      assert (t - q) * n > 0.0;
    } else {
      assert (q - t) * n >= 0.0;
    }
  }

  /** Nine of ten words typed passes the level although one was missed. */
  lemma NineOfTenPasses(bs: seq<BottleState>)
    requires |bs| == 10 && CorrectCount(bs) == 9
    ensures !Missed(bs)
  {
    MissedIff(bs);
  }

  /** Eight of ten words typed fails the level. */
  lemma EightOfTenFails(bs: seq<BottleState>)
    requires |bs| == 10 && CorrectCount(bs) == 8
    ensures Missed(bs)
  {
    MissedIff(bs);
  }

  // A reference definition of the message: mark each bottle, collapse every run of misses
  // into one gap, and render.

  /** Each bottle's mark: its word if typed, a gap if missed. */
  function Marks(bs: seq<BottleState>): (ms: seq<Mark>)
    ensures |ms| == |bs|
    ensures forall i :: 0 <= i < |bs| ==> ms[i] == if bs[i].HasWord() then None else Some(bs[i].word)
  {
    seq(|bs|, i requires 0 <= i < |bs| => if bs[i].HasWord() then None else Some(bs[i].word))
  }

  /** Leading gaps removed. */
  function DropGaps(ms: seq<Mark>): (r: seq<Mark>)
    ensures |r| <= |ms|
    ensures r == [] || r[0].Some?
  {
    if ms == [] then [] else if ms[0].None? then DropGaps(ms[1..]) else ms
  }

  /** Every maximal run of gaps replaced by a single gap. */
  function Collapse(ms: seq<Mark>): seq<Mark>
    decreases |ms|
  {
    if ms == [] then []
    else if ms[0].None? then [None] + Collapse(DropGaps(ms[1..]))
    else [ms[0]] + Collapse(ms[1..])
  }

  function Render(ms: seq<Mark>): string
  {
    if ms == [] then "" else (match ms[0] case None => "... " case Some(w) => w + " ") + Render(ms[1..])
  }

  lemma {:induction false} DropGapsAppend(s: seq<Mark>, t: seq<Mark>)
    ensures DropGaps(s) != [] ==> DropGaps(s + t) == DropGaps(s) + t
    ensures DropGaps(s) == [] ==> DropGaps(s + t) == DropGaps(t)
  {
    if s != [] {
      assert (s + t)[1..] == s[1..] + t;
      if s[0].None? {
        DropGapsAppend(s[1..], t);
      }
    } else {
      assert s + t == t;
    }
  }

  /** A run of gaps, however long, collapses to one gap. */
  lemma CollapseRun(ms: seq<Mark>)
    requires ms != [] && forall i :: 0 <= i < |ms| ==> ms[i].None?
    ensures Collapse(ms) == [None]
  {
    DropGapsOfGaps(ms[1..]);
  }

  lemma {:induction false} DropGapsOfGaps(ms: seq<Mark>)
    requires forall i :: 0 <= i < |ms| ==> ms[i].None?
    ensures DropGaps(ms) == []
  {
    if ms != [] {
      var rest := ms[1..];
      forall i | 0 <= i < |rest| ensures rest[i].None? {
        assert rest[i] == ms[i + 1];
      }
      DropGapsOfGaps(rest);
    }
  }

  /** Collapsing splits at any point where a typed word (or the end) follows. */
  lemma {:induction false} CollapseAppend(a: seq<Mark>, x: seq<Mark>)
    requires x == [] || x[0].Some?
    ensures Collapse(a + x) == Collapse(a) + Collapse(x)
    decreases |a|
  {
    if a == [] {
      assert a + x == x;
    } else {
      var ax := a + x;
      var rest := a[1..];
      assert ax[0] == a[0] && ax[1..] == rest + x;
      if a[0].None? {
        DropGapsAppend(rest, x);
        var d := DropGaps(rest);
        assert Collapse(ax) == [None] + Collapse(DropGaps(rest + x));
        assert Collapse(a) == [None] + Collapse(d);
        if d != [] {
          CollapseAppend(d, x);
        } else {
          assert DropGaps(rest + x) == x;
        }
      } else {
        assert Collapse(ax) == [a[0]] + Collapse(rest + x);
        CollapseAppend(rest, x);
      }
    }
  }

  /** A typed word separates the runs on either side: each side collapses on its own. */
  lemma CollapseSplit(a: seq<Mark>, w: string, b: seq<Mark>)
    ensures Collapse(a + [Some(w)] + b) == Collapse(a) + [Some(w)] + Collapse(b)
  {
    var x := [Some(w)] + b;
    assert a + [Some(w)] + b == a + x;
    CollapseAppend(a, x);
    assert x[1..] == b;
  }

  /** What collapsing adds when one more mark is appended. */
  function Tail(ms: seq<Mark>, m: Mark): seq<Mark>
  {
    if m.None? && ms != [] && ms[|ms| - 1].None? then [] else [m]
  }

  lemma {:induction false} CollapseSnoc(ms: seq<Mark>, m: Mark)
    ensures Collapse(ms + [m]) == Collapse(ms) + Tail(ms, m)
    decreases |ms|, 1
  {
    if ms == [] {
      assert ms + [m] == [m];
      assert [m][1..] == [];
    } else if ms[0].None? {
      CollapseSnocGap(ms, m);
    } else {
      var mm := ms + [m];
      var rest := ms[1..];
      assert mm[0] == ms[0] && mm[1..] == rest + [m];
      assert Collapse(mm) == [ms[0]] + Collapse(rest + [m]);
      CollapseSnoc(rest, m);
      if rest != [] {
        assert ms[|ms| - 1] == rest[|rest| - 1];
      }
    }
  }

  /** `CollapseSnoc` when `ms` opens with a run of gaps. */
  lemma {:induction false} CollapseSnocGap(ms: seq<Mark>, m: Mark)
    requires ms != [] && ms[0].None?
    ensures Collapse(ms + [m]) == Collapse(ms) + Tail(ms, m)
    decreases |ms|, 0
  {
    var mm := ms + [m];
    var rest := ms[1..];
    assert mm[0] == ms[0] && mm[1..] == rest + [m];
    DropGapsAppend(rest, [m]);
    var d := DropGaps(rest);
    assert Collapse(mm) == [None] + Collapse(DropGaps(rest + [m]));
    assert Collapse(ms) == [None] + Collapse(d);
    if d == [] {
      DropGapsAllGaps(rest);
      AllGapsSnoc(ms, m);
    } else {
      CollapseSnoc(d, m);
      DropGapsLast(rest);
      assert ms[|ms| - 1] == rest[|rest| - 1];
    }
  }

  /** `CollapseSnoc` when `ms` holds nothing but gaps. */
  lemma {:induction false} AllGapsSnoc(ms: seq<Mark>, m: Mark)
    requires ms != [] && forall i :: 0 <= i < |ms| ==> ms[i].None?
    ensures Collapse(ms + [m]) == Collapse(ms) + Tail(ms, m)
  {
    var mm := ms + [m];
    var rest := ms[1..];
    assert mm[0] == ms[0] && mm[1..] == rest + [m];
    CollapseRun(ms);
    DropGapsOfGaps(rest);
    DropGapsAppend(rest, [m]);
    assert DropGaps(rest + [m]) == DropGaps([m]);
    assert Collapse(mm) == [None] + Collapse(DropGaps([m]));
    assert [m][1..] == [];
    if m.None? {
      assert ms[|ms| - 1].None?;
      assert DropGaps([m]) == DropGaps([]) == [];
      assert Tail(ms, m) == [];
    } else {
      assert DropGaps([m]) == [m];
      assert Collapse([m]) == [m] + Collapse([]);
      assert Tail(ms, m) == [m];
    }
  }

  lemma {:induction false} DropGapsAllGaps(ms: seq<Mark>)
    requires DropGaps(ms) == []
    ensures forall i :: 0 <= i < |ms| ==> ms[i].None?
  {
    if ms != [] {
      DropGapsAllGaps(ms[1..]);
      forall i | 1 <= i < |ms| ensures ms[i].None? { assert ms[i] == ms[1..][i - 1]; }
    }
  }

  lemma {:induction false} DropGapsLast(ms: seq<Mark>)
    requires DropGaps(ms) != []
    ensures DropGaps(ms)[|DropGaps(ms)| - 1] == ms[|ms| - 1]
  {
    if ms[0].None? {
      DropGapsLast(ms[1..]);
    }
  }

  lemma {:induction false} RenderSnoc(ms: seq<Mark>, t: seq<Mark>)
    ensures Render(ms + t) == Render(ms) + Render(t)
  {
    if ms == [] {
      assert ms + t == t;
    } else {
      assert (ms + t)[1..] == ms[1..] + t;
      RenderSnoc(ms[1..], t);
    }
  }

  /** The piece the loop appends for the last bottle renders what collapsing adds for its mark. */
  lemma PieceRendersTail(bs: seq<BottleState>)
    requires bs != []
    ensures Piece(bs, |bs| - 1) == Render(Tail(Marks(bs[..|bs| - 1]), Marks(bs)[|bs| - 1]))
  {
    var n := |bs|;
    var t := Tail(Marks(bs[..n - 1]), Marks(bs)[n - 1]);
    if t != [] {
      assert t[1..] == [];
    }
    if n > 1 {
      assert Marks(bs[..n - 1])[n - 2] == Marks(bs)[n - 2];
    }
  }

  /**
   * The loop's message is the rendering of the collapsed marks: typed words in order, each
   * followed by a space, and one "... " for each maximal run of missed bottles.
   */
  lemma {:induction false} MessageRendersCollapse(bs: seq<BottleState>)
    ensures MissMessage(bs) == Render(Collapse(Marks(bs)))
  {
    if bs != [] {
      var n := |bs|;
      var init := bs[..n - 1];
      var m := Marks(bs)[n - 1];
      MessageRendersCollapse(init);
      assert Marks(bs) == Marks(init) + [m];
      CollapseSnoc(Marks(init), m);
      RenderSnoc(Collapse(Marks(init)), Tail(Marks(init), m));
      PieceRendersTail(bs);
      assert MissMessage(bs) == MissMessage(init) + Piece(bs, n - 1);
    }
  }
}
