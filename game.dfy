/**
 * The game objects that drive a level (shipwrecked.py): the text field's key handling, the
 * level state machine and the game session with its spawn scheduling, pause/resume and
 * statistics. Each object receives the session it works on as a parameter.
 */
module Game {
  import opened Wrappers
  import opened Seqs
  import opened Clock
  import opened Bottles
  import opened Matching
  import opened Scoring
  import opened Stats
  import opened Script

  /**
   * The characters the text field's key map can produce: lower-case letters, digits and the
   * unshifted punctuation keys, and their shifted forms. Space is not among them.
   */
  predicate KeyMapChar(c: char)
  {
    ('a' <= c <= 'z') || ('A' <= c <= 'Z') || ('0' <= c <= '9')
    || c in "-=`[]\\;',./!@#$%^&*()_+~{}|:\"<>?"
  }

  type KeyChar = c: char | KeyMapChar(c) witness 'a'

  /** A key press: a key of the key map (already shift-mapped), space, return, or another key. */
  datatype Key = Printable(c: KeyChar) | Space | Return | Other

  predicate IsUnused(b: BottleState) { !b.Used() }

  /** The bottle move_next_bottle brings into view: the first one not yet used. */
  function FirstUnused(bs: seq<BottleState>): Option<nat>
  {
    FirstIndex(bs, IsUnused)
  }

  /** No bottle in view still carries a word. */
  predicate NoWordInView(bs: seq<BottleState>)
  {
    forall i :: 0 <= i < |bs| ==> !(bs[i].InView() && bs[i].HasWord())
  }

  /** No bottle is in view. */
  predicate NoneInView(bs: seq<BottleState>)
  {
    forall i :: 0 <= i < |bs| ==> !bs[i].InView()
  }

  /** The bottles after move_next_bottle has brought the first unused one (if any) into view. */
  function Spawned(bs: seq<BottleState>, now: real): (r: seq<BottleState>)
    ensures |r| == |bs| && SameMarks(bs, r)
    ensures FirstUnused(bs).None? ==> r == bs
    ensures FirstUnused(bs).Some? ==>
      var i := FirstUnused(bs).value;
      && r[i].InView() && r[i].x == EntryX && r[i].start == Some(now) && r[i].saved == 0.0
      && forall j :: 0 <= j < |bs| && j != i ==> r[j] == bs[j]
  {
    match FirstUnused(bs)
    case None => bs
    case Some(i) => bs[i := bs[i].MovedInView(now)]
  }

  /**
   * Each admission uses up one bottle: one fewer is left unused, and the next admission
   * takes a bottle strictly further down the list.
   */
  lemma SpawnAdvances(bs: seq<BottleState>, now: real)
    requires FirstUnused(bs).Some?
    ensures Count(Spawned(bs, now), IsUnused) + 1 == Count(bs, IsUnused)
    ensures FirstUnused(Spawned(bs, now)).Some? ==>
      FirstUnused(Spawned(bs, now)).value > FirstUnused(bs).value
  {
    var i := FirstUnused(bs).value;
    var r := Spawned(bs, now);
    CountFlipOne(r, bs, IsUnused, i);
    assert forall j :: 0 <= j <= i ==> !IsUnused(r[j]);
  }

  /**
   * The tally loop of end_level over `bottles`, whose states are `bs`: the message, whether a
   * word was missed, and the count typed.
   */
  method Tally(bottles: seq<Bottle>, ghost bs: seq<BottleState>) returns (message: string, anyMissed: bool, typed: nat)
    requires bs == StatesOf(bottles)
    ensures message == MissMessage(bs)
    ensures anyMissed <==> typed < |bottles|
    ensures typed == CorrectCount(bs)
  {
    message := "";
    anyMissed := false;
    typed := 0;
    var last := false;
    for i := 0 to |bottles|
      invariant message == MissMessage(bs[..i])
      invariant last == (i > 0 && bs[i - 1].HasWord())
      invariant typed == CorrectCount(bs[..i])
      invariant anyMissed <==> typed < i
    {
      TallyStep(bs, i);
      var b := bottles[i];
      assert b.State() == bs[i];
      if b.HasWord() {
        anyMissed := true;
        if !last {
          message := message + "... ";
          last := true;
        }
      } else {
        message := message + (b.word + " ");
        last := false;
        typed := typed + 1;
      }
    }
    assert bs[..|bottles|] == bs;
  }

  /**
   * The grading of end_level over `bottles`, which carry the same words and marks as `bs`: the
   * tally, the 90% leniency rule, the level's pace over the clock reading `time`, and the
   * source of the level's script `line`.
   */
  method Grade(bottles: seq<Bottle>, ghost bs: seq<BottleState>, time: real, line: string)
    returns (message: string, missed: bool, typed: nat, wpm: Option<real>, source: Option<string>)
    requires |bottles| > 0 && SameMarks(bs, StatesOf(bottles))
    ensures message == MissMessage(bs) && typed == CorrectCount(bs) && missed == Missed(bs)
    ensures wpm == LevelWpm(typed, time) && source == Source(line)
  {
    ghost var cur := StatesOf(bottles);
    ScoreSameMarks(bs, cur);
    var anyMissed;
    message, anyMissed, typed := Tally(bottles, cur);
    missed := anyMissed;
    if (typed as real) / (|bottles| as real) >= 0.9 {
      missed := false;
    }
    MissedByRatio(cur, anyMissed, typed);
    wpm := LevelWpm(typed, time);
    source := Source(line);
  }

  class TextField {
    var text: string

    constructor ()
      ensures text == []
    {
      text := [];
    }

    /** Relative to an earlier state: the text was committed against the bottles and cleared. */
    twostate predicate Submitted(game: Shipwrecked)
      reads this, game, game.bottles
    {
      text == [] && game.bottles == old(game.bottles)
      && game.States() == Commit(old(game.States()), old(text))
    }

    /**
     * The submit branch of process_key: every in-view bottle is matched in order until one
     * takes the text, and the text is cleared whatever the outcome.
     */
    method Submit(game: Shipwrecked)
      requires game.Valid() && game.field == this
      modifies this`text, game.bottles
      ensures game.Valid() && Submitted(game)
    {
      ghost var s0 := game.States();
      var t := text;
      var i := 0;
      var done := false;
      while i < |game.bottles| && !done
        invariant game.Valid()
        invariant 0 <= i <= |game.bottles|
        invariant |game.States()| == |s0|
        invariant done ==> game.States() == Commit(s0, t)
        invariant !done ==> Commit(s0, t) == game.States()[..i] + Commit(s0[i..], t)
        invariant !done ==> forall j :: i <= j < |s0| ==> game.States()[j] == s0[j]
      {
        ghost var cur := game.States();
        var ok := game.TryBottle(i, t);
        CommitLoopStep(s0, cur, game.States(), t, i);
        done := ok;
        i := i + 1;
      }
      if !done {
        CommitExhausted(s0, game.States(), t);
      }
      assert game.States() == Commit(s0, t);
      text := [];
    }

    /**
     * The key handling of process_key: a key of the key map is appended while the text
     * still fits the field (`fits`); space, or return while one word is left, submits.
     */
    method ProcessKey(key: Key, fits: bool, game: Shipwrecked)
      requires game.Valid() && game.field == this
      modifies this`text, game.bottles
      ensures game.Valid()
      ensures key.Printable? && fits ==>
        text == old(text) + [key.c] && game.States() == old(game.States())
      ensures (!(key.Printable? && fits) &&
               (key.Space? || (key.Return? && ExactlyOne(old(game.States()), IsPending)))) ==>
        Submitted(game)
      ensures (!(key.Printable? && fits) && !key.Space? &&
               !(key.Return? && ExactlyOne(old(game.States()), IsPending))) ==>
        text == old(text) && game.States() == old(game.States())
    {
      if key.Printable? && fits {
        text := text + [key.c];
      } else if key.Space? {
        Submit(game);
      } else if key.Return? {
        var last := game.IsLastWord();
        if last {
          Submit(game);
        }
      }
    }
  }

  class Level {
    var levelNum: nat
    var ended: bool
    var missed: bool
    var gameOver: bool
    /** A "Level n" flyout is on its way across the screen. */
    var flyingOut: bool
    // The contents of the end-of-level panel.
    var message: string
    var correct: nat
    var shownWpm: Option<real>
    var attribution: Option<string>

    constructor ()
      ensures levelNum == 1 && !ended && !missed && !gameOver && !flyingOut
      ensures message == [] && correct == 0 && shownWpm == None && attribution == None
    {
      levelNum := 1;
      ended := false;
      missed := false;
      gameOver := false;
      flyingOut := false;
      message := [];
      correct := 0;
      shownWpm := None;
      attribution := None;
    }

    /**
     * The level has ended with the panel scored from the bottles `bs`, the level clock
     * reading `time` and the level's script line.
     */
    predicate Shows(bs: seq<BottleState>, time: real, line: string)
      requires |bs| > 0
      reads this
    {
      && ended && message == MissMessage(bs) && correct == CorrectCount(bs) && missed == Missed(bs)
      && shownWpm == LevelWpm(correct, time) && attribution == Source(line)
    }

    /**
     * end_level: pauses the game, scores the bottles (the 90% rule forgives misses), and
     * logs the words typed and the level time into the session totals.
     */
    method EndLevel(game: Shipwrecked, now: real, ghost bs: seq<BottleState>, ghost time: real)
      requires game.Valid() && game.level == this && |game.bottles| > 0
      requires bs == game.States() && time == game.timer.currentTime
      modifies this`ended, this`missed, this`message, this`correct, this`shownWpm, this`attribution
      modifies game`paused, game`lastAddedSave, game`totalWords, game`totalTime, game.timer, game.bottles
      ensures game.Valid()
      ensures game.PausedFrom(old(game.paused), bs, old(game.lastAddedSave), old(game.lastAdded), now)
      ensures old(game.paused) ==> unchanged(game.timer)
      ensures !old(game.paused) ==> game.timer.Stopped()
      ensures game.totalWords == old(game.totalWords) + correct
      ensures game.totalTime == old(game.totalTime) + time
      ensures Shows(bs, time, game.lines[levelNum - 1])
      ensures levelNum == old(levelNum) && gameOver == old(gameOver) && flyingOut == old(flyingOut)
      ensures game.lastAdded == old(game.lastAdded)
    {
      game.Pause(now);
      PauseAllMarks(bs, now);
      Score(game, bs);
    }

    /**
     * The scoring half of end_level, on a paused game whose bottles carry the same words and
     * marks as `bs`.
     */
    method Score(game: Shipwrecked, ghost bs: seq<BottleState>)
      requires game.Valid() && game.level == this && |game.bottles| > 0
      requires SameMarks(bs, game.States())
      modifies this`ended, this`missed, this`message, this`correct, this`shownWpm, this`attribution
      modifies game`totalWords, game`totalTime
      ensures game.Valid()
      ensures Shows(bs, game.timer.currentTime, game.lines[levelNum - 1])
      ensures game.totalWords == old(game.totalWords) + correct
      ensures game.totalTime == old(game.totalTime) + game.timer.currentTime
    {
      var time, line := game.timer.currentTime, game.lines[levelNum - 1];
      var msg, grade, typed, wpm, source := Grade(game.bottles, bs, time, line);
      ended, missed, message, correct, shownWpm, attribution := true, grade, msg, typed, wpm, source;
      assert Shows(bs, time, line);
      game.LogWords(typed);
      assert game.timer.currentTime == time;
    }

    /** redo_level: drops the bottles, resets the clock and announces the level again. */
    method RedoLevel(game: Shipwrecked)
      requires game.Valid() && game.level == this
      modifies this`ended, this`flyingOut, game`bottles
      modifies game.timer`started, game.timer`currentTime, game.timer`savedTime
      ensures game.Valid()
      ensures game.bottles == [] && !ended && flyingOut
      ensures !game.timer.started && game.timer.currentTime == 0.0 && game.timer.savedTime == 0.0
      ensures game.timer.startTime == old(game.timer.startTime)
    {
      game.bottles := [];
      game.timer.Reset();
      ended := false;
      flyingOut := true;
    }

    /** next_level: after the last line the game is over; otherwise the next level is set up. */
    method NextLevel(game: Shipwrecked)
      requires game.Valid() && game.level == this
      modifies this`levelNum, this`gameOver, this`ended, this`flyingOut, game`bottles
      modifies game.timer`started, game.timer`currentTime, game.timer`savedTime
      ensures game.Valid()
      ensures old(levelNum) == |game.lines| ==>
        && gameOver && levelNum == old(levelNum) && ended == old(ended) && flyingOut == old(flyingOut)
        && game.bottles == old(game.bottles) && unchanged(game.timer)
      ensures old(levelNum) < |game.lines| ==>
        && levelNum == old(levelNum) + 1 && gameOver == old(gameOver)
        && game.bottles == [] && !ended && flyingOut
        && !game.timer.started && game.timer.currentTime == 0.0 && game.timer.savedTime == 0.0
        && game.timer.startTime == old(game.timer.startTime)
    {
      if levelNum == |game.lines| {
        gameOver := true;
        return;
      }
      levelNum := levelNum + 1;
      RedoLevel(game);
    }

    /** Relative to an earlier state: the level's number, panel and flags other than the flyout are kept. */
    twostate predicate Kept()
      reads this
    {
      && levelNum == old(levelNum) && ended == old(ended) && missed == old(missed)
      && gameOver == old(gameOver) && message == old(message) && correct == old(correct)
      && shownWpm == old(shownWpm) && attribution == old(attribution)
    }

    /**
     * The flyout step of update. While the "Level n" flyout is on screen it moves, and
     * `started` records whether it has `arrived` at the end of its path on this frame (its
     * position is not modelled). On the first frame that finds it already finished
     * (`flyoutDone`), the level starts. A finished game does nothing.
     */
    method Update(game: Shipwrecked, flyoutDone: bool, arrived: bool, now: real)
      requires game.Valid() && game.level == this
      modifies this, game, game.timer, game.field, game.bottles
      ensures game.Valid()
      ensures old(gameOver || !flyingOut) ==>
        unchanged(this, game, game.timer, game.field) && game.States() == old(game.States())
      ensures old(!gameOver && flyingOut && !flyoutDone) ==>
        && game.started == arrived && unchanged(this, game.timer, game.field)
        && game.bottles == old(game.bottles) && game.States() == old(game.States())
        && game.paused == old(game.paused) && game.lastAdded == old(game.lastAdded)
        && game.lastAddedSave == old(game.lastAddedSave) && game.wpm == old(game.wpm)
        && game.totalWords == old(game.totalWords) && game.totalTime == old(game.totalTime)
      ensures old(!gameOver && flyingOut && flyoutDone) ==> LevelStarted(game, old(game.paused), old(game.started), now)
    {
      if gameOver {
        return;
      }
      if flyingOut && flyoutDone {
        StartLevel(game, now);
      } else if flyingOut {
        game.started := arrived;
      }
    }

    /**
     * Relative to the state before the flyout finished: the level's fresh bottles were added
     * and the game plays. `wasPaused` and `wasStarted` are the session's earlier flags.
     */
    twostate predicate LevelStarted(game: Shipwrecked, wasPaused: bool, wasStarted: bool, now: real)
      requires old(game.Valid()) && game.level == this
      reads this, game, game.timer, game.field, game.bottles
    {
      var added := FreshAll(LevelWords(game.lines[old(levelNum) - 1]));
      && !flyingOut && !game.paused
      && (!wasPaused ==>
            && game.States() == old(game.States()) + added
            && Kept() && unchanged(game.timer, game.field)
            && game.started == old(game.started) && game.lastAdded == old(game.lastAdded)
            && game.lastAddedSave == old(game.lastAddedSave)
            && game.totalWords == old(game.totalWords) && game.totalTime == old(game.totalTime)
            && game.wpm == TargetWpm(|game.bottles|, game.GetAvgWpm()))
      && (wasPaused ==> game.started && game.lastAdded == Some(now) && game.timer.started)
      && (wasPaused && wasStarted ==>
            && game.States() == PlayAll(old(game.States()) + added, now)
            && Kept() && unchanged(game.field)
            && game.lastAddedSave == old(game.lastAddedSave)
            && game.totalWords == old(game.totalWords) && game.totalTime == old(game.totalTime)
            && game.wpm == TargetWpm(|game.bottles|, game.GetAvgWpm())
            && game.timer.startTime == Some(now)
            && game.timer.currentTime == old(game.timer.currentTime)
            && game.timer.savedTime == old(game.timer.savedTime))
    }

    /** The finished-flyout branch of update: set_up_bottles, play, and the flyout is dropped. */
    method StartLevel(game: Shipwrecked, now: real)
      requires game.Valid() && game.level == this
      modifies this, game, game.timer, game.field, game.bottles
      ensures game.Valid()
      ensures LevelStarted(game, old(game.paused), old(game.started), now)
    {
      ghost var added := FreshAll(LevelWords(game.lines[levelNum - 1]));
      SetUpBottles(game);
      assert game.States() == old(game.States()) + added;
      game.Play(now);
      flyingOut := false;
    }

    /** set_up_bottles: one fresh bottle per word of the level's line, then the pace is set. */
    method SetUpBottles(game: Shipwrecked)
      requires game.Valid() && game.level == this
      modifies game`bottles, game`wpm
      ensures game.Valid()
      ensures game.States() == old(game.States()) + FreshAll(LevelWords(game.lines[levelNum - 1]))
      ensures game.bottles[..|old(game.bottles)|] == old(game.bottles)
      ensures forall i :: |old(game.bottles)| <= i < |game.bottles| ==> fresh(game.bottles[i])
      ensures game.wpm == TargetWpm(|game.bottles|, game.GetAvgWpm())
    {
      var words := LevelWords(game.lines[levelNum - 1]);
      ghost var s0 := game.States();
      ghost var b0 := game.bottles;
      for k := 0 to |words|
        invariant game.Valid()
        invariant |game.bottles| == |b0| + k && game.bottles[..|b0|] == b0
        invariant forall i :: |b0| <= i < |game.bottles| ==> fresh(game.bottles[i])
        invariant game.States() == s0 + FreshAll(words[..k])
      {
        game.AddBottle(words[k]);
        assert FreshAll(words[..k + 1]) == FreshAll(words[..k]) + [Fresh(words[k])];
      }
      assert words[..|words|] == words;
      game.SetWpm();
    }
  }

  class Shipwrecked {
    var bottles: seq<Bottle>
    var paused: bool
    var started: bool
    var lastAdded: Option<real>
    /** Time since the last admission banked across pauses. */
    var lastAddedSave: real
    var totalWords: nat
    var totalTime: real
    /** The admission pace in words per minute. */
    var wpm: real
    /** The chosen text of each level, in order. */
    const lines: seq<string>
    const timer: Timer
    const level: Level
    const field: TextField

    ghost predicate Valid()
      reads this, timer, level
    {
      && timer.Valid() && timer.limit == LevelSeconds
      && (!paused ==> lastAdded.Some?)
      && totalTime >= 0.0
      && 1 <= level.levelNum <= |lines|
      && forall i, j :: 0 <= i < j < |bottles| ==> bottles[i] != bottles[j]
    }

    /** A session over the chosen level texts `lines`, paused before the first level. */
    constructor (lines: seq<string>)
      requires |lines| >= 1
      ensures Valid() && this.lines == lines && fresh(timer) && fresh(level) && fresh(field)
      ensures bottles == [] && paused && !started && lastAdded == None && lastAddedSave == 0.0
      ensures totalWords == 0 && totalTime == 0.0
      ensures level.levelNum == 1 && !level.ended && !level.gameOver && !level.flyingOut
      ensures field.text == [] && !timer.started && timer.currentTime == 0.0
    {
      bottles := [];
      paused := true;
      started := false;
      lastAdded := None;
      lastAddedSave := 0.0;
      totalWords := 0;
      totalTime := 0.0;
      wpm := 0.0;
      this.lines := lines;
      timer := new Timer(LevelSeconds);
      level := new Level();
      field := new TextField();
    }

    function States(): seq<BottleState>
      reads this, bottles
    {
      StatesOf(bottles)
    }

    /** get_avg_wpm: words per minute over the levels logged so far, 0 before any time is logged. */
    function GetAvgWpm(): (r: real)
      requires totalTime >= 0.0
      reads this
      ensures totalTime == 0.0 ==> r == 0.0
      ensures totalTime > 0.0 ==>
        0.0 <= r <= totalWords as real * 60.0 / totalTime < r + 0.1
      ensures r * 10.0 == (r * 10.0).Floor as real
    {
      AvgWpmBounds(totalWords, totalTime);
      AvgWpm(totalWords, totalTime)
    }

    /** One turn of the submit loop: bottle `i`, if in view, is matched against `text`. */
    method TryBottle(i: nat, text: string) returns (ok: bool)
      requires Valid() && i < |bottles|
      modifies bottles[i]
      ensures Valid()
      ensures States() == old(States())[i := Attempt(old(States())[i], text).0]
      ensures ok == Attempt(old(States())[i], text).1
    {
      var b := bottles[i];
      ok := false;
      if b.InView() {
        ok := b.Match(text, true);
      }
      assert forall j :: 0 <= j < |bottles| && j != i ==> bottles[j] != b;
    }

    /** One turn of set_up_bottles' loop: a new bottle for `word` is appended to the list. */
    method AddBottle(word: string)
      requires Valid()
      modifies this`bottles
      ensures Valid()
      ensures |bottles| == |old(bottles)| + 1 && bottles[..|old(bottles)|] == old(bottles)
      ensures fresh(bottles[|old(bottles)|])
      ensures States() == old(States()) + [Fresh(word)]
    {
      ghost var before := States();
      var b := new Bottle(word);
      bottles := bottles + [b];
      assert States() == before + [Fresh(word)];
    }

    /** set_wpm: the pace is the number of bottles, raised to the player's average if higher. */
    method SetWpm()
      requires totalTime >= 0.0
      modifies this`wpm
      ensures wpm == TargetWpm(|bottles|, GetAvgWpm())
    {
      wpm := |bottles| as real;
      if wpm < GetAvgWpm() {
        wpm := GetAvgWpm();
      }
    }

    /** is_last_word: exactly one bottle is still to be typed. */
    method IsLastWord() returns (last: bool)
      ensures last <==> ExactlyOne(States(), IsPending)
    {
      ghost var bs := States();
      var count := 0;
      for i := 0 to |bottles|
        invariant count == Count(bs[..i], IsPending)
      {
        assert bs[..i + 1][..i] == bs[..i];
        if (bottles[i].InView() && bottles[i].HasWord()) || !bottles[i].Used() {
          count := count + 1;
        }
      }
      assert bs[..|bottles|] == bs;
      CountOne(bs, IsPending);
      last := count == 1;
    }

    /** get_bottles_correct: how many words have been typed. */
    method GetBottlesCorrect() returns (count: nat)
      ensures count == CorrectCount(States())
      ensures count == |bottles| <==> forall i :: 0 <= i < |bottles| ==> !States()[i].HasWord()
    {
      ghost var bs := States();
      count := 0;
      for i := 0 to |bottles|
        invariant count == Count(bs[..i], Typed)
      {
        assert bs[..i + 1][..i] == bs[..i];
        if !bottles[i].HasWord() {
          count := count + 1;
        }
      }
      assert bs[..|bottles|] == bs;
      CountAll(bs, Typed);
    }

    /** log_words: adds the words typed and the level clock's time to the session totals. */
    method LogWords(words: nat)
      requires Valid()
      modifies this`totalWords, this`totalTime
      ensures Valid()
      ensures totalWords == old(totalWords) + words && totalTime == old(totalTime) + timer.currentTime
      ensures totalWords >= old(totalWords) && totalTime >= old(totalTime)
      ensures unchanged(timer)
    {
      totalTime := totalTime + timer.currentTime;
      totalWords := totalWords + words;
    }

    /**
     * The game is paused at `now`, coming from a state that was paused (`wasPaused`) with
     * bottles `before`, banked time `save` and last admission `since`: if it was running,
     * the time since the last admission was banked once and every bottle was paused.
     */
    predicate PausedFrom(wasPaused: bool, before: seq<BottleState>, save: real, since: Option<real>, now: real)
      reads this, bottles
    {
      && paused
      && (wasPaused ==> lastAddedSave == save && States() == before)
      && (!wasPaused ==>
            && since.Some?
            && lastAddedSave == save + (now - since.value)
            && States() == PauseAll(before, now))
    }

    /** pause: a no-op when already paused. */
    method Pause(now: real)
      requires Valid()
      modifies this`paused, this`lastAddedSave, timer, bottles
      ensures Valid() && PausedFrom(old(paused), old(States()), old(lastAddedSave), old(lastAdded), now)
      ensures old(paused) ==> unchanged(timer)
      ensures !old(paused) ==> timer.Stopped()
    {
      if paused {
        return;
      }
      timer.Pause();
      lastAddedSave := lastAddedSave + (now - lastAdded.value);
      PauseBottles(now);
      paused := true;
    }

    /** The loop of pause over the bottles. */
    method PauseBottles(now: real)
      requires Valid()
      modifies bottles
      ensures States() == PauseAll(old(States()), now)
    {
      ghost var s0 := States();
      for i := 0 to |bottles|
        invariant forall j :: 0 <= j < i ==> bottles[j].State() == s0[j].Paused(now)
        invariant forall j :: i <= j < |bottles| ==> bottles[j].State() == s0[j]
      {
        bottles[i].Pause(now);
      }
    }

    /**
     * Relative to the state before move_next_bottle: bottle `i` entered view at `now`, the
     * admission clock restarted, and nothing else changed.
     */
    twostate predicate EnteredView(i: nat, now: real)
      reads this, timer, level, field, bottles
    {
      && i < |old(States())|
      && bottles == old(bottles) && unchanged(timer, level, field)
      && States() == old(States())[i := old(States())[i].MovedInView(now)]
      && lastAdded == Some(now) && lastAddedSave == 0.0
      && paused == old(paused) && started == old(started) && wpm == old(wpm)
      && totalWords == old(totalWords) && totalTime == old(totalTime)
    }

    /**
     * Relative to the state before move_next_bottle, with every bottle used: the level clock
     * stopped if no word is in view, and the level ended if no bottle is.
     */
    twostate predicate LevelChecked(now: real)
      reads this, timer, level, field, bottles
    {
      var bs := old(States());
      && bs != [] && 1 <= old(level.levelNum) <= |lines|
      && bottles == old(bottles) && started == old(started) && wpm == old(wpm)
      && timer.currentTime == old(timer.currentTime) && timer.startTime == old(timer.startTime)
      && (NoWordInView(bs) ==> !timer.started && timer.savedTime == old(timer.currentTime))
      && (!NoWordInView(bs) ==> unchanged(timer))
      && (NoneInView(bs) ==> Finished(now))
      && (!NoneInView(bs) ==> unchanged(this, level, field) && States() == bs)
    }

    /**
     * Relative to the state before move_next_bottle: the first unused bottle entered view;
     * with none left in a running level, the level was checked; otherwise nothing changed.
     */
    twostate predicate SpawnedNext(now: real)
      reads this, timer, level, field, bottles
    {
      var bs := old(States());
      match FirstUnused(bs)
      case Some(i) => EnteredView(i, now) && States() == Spawned(bs, now)
      case None =>
        if !old(level.ended) && bs != [] then LevelChecked(now)
        else unchanged(this, timer, level, field) && States() == bs
    }

    /** move_next_bottle. */
    method MoveNextBottle(now: real)
      requires Valid()
      modifies this, timer, level, field, bottles
      ensures Valid() && SpawnedNext(now)
    {
      ghost var bs := States();
      var i := 0;
      while i < |bottles| && bottles[i].Used()
        invariant 0 <= i <= |bottles|
        invariant forall j :: 0 <= j < i ==> bs[j].Used()
      {
        i := i + 1;
      }
      if i < |bottles| {
        assert FirstUnused(bs) == Some(i);
        SpawnAt(i, now);
        return;
      }
      assert FirstUnused(bs).None?;
      if level.ended || |bottles| == 0 {
        return;
      }
      CheckLevel(now);
    }

    /** The spawning branch of move_next_bottle. */
    method SpawnAt(i: nat, now: real)
      requires Valid() && i < |bottles|
      modifies this`lastAdded, this`lastAddedSave, bottles[i]
      ensures Valid() && EnteredView(i, now)
    {
      var b := bottles[i];
      b.MoveInView(now);
      assert forall j :: 0 <= j < |bottles| && j != i ==> bottles[j] != b;
      lastAdded := Some(now);
      lastAddedSave := 0.0;
    }

    /** The branch of move_next_bottle taken once every bottle of a running level is used. */
    method CheckLevel(now: real)
      requires Valid() && |bottles| > 0
      modifies this, timer, level, field, bottles
      ensures Valid() && LevelChecked(now)
    {
      ghost var bs := States();
      var noWordInView, noneInView := true, true;
      for j := 0 to |bottles|
        invariant noWordInView <==> forall k :: 0 <= k < j ==> !(bs[k].InView() && bs[k].HasWord())
        invariant noneInView <==> forall k :: 0 <= k < j ==> !bs[k].InView()
      {
        if bottles[j].InView() && bottles[j].HasWord() {
          noWordInView := false;
        }
        if bottles[j].InView() {
          noneInView := false;
        }
      }
      if noneInView {
        // no bottle in view means no word in view either: the clock stops, then the level ends
        FinishLevel(now);
      } else if noWordInView {
        timer.Pause();
      }
    }

    /**
     * Relative to an earlier state: the level ended and was scored from the bottles as they
     * were, the game paused, and the text field cleared.
     */
    twostate predicate Finished(now: real)
      reads this, timer, level, field, bottles
    {
      var bs := old(States());
      && bs != [] && 1 <= old(level.levelNum) <= |lines|
      && PausedFrom(old(paused), bs, old(lastAddedSave), old(lastAdded), now)
      && level.Shows(bs, old(timer.currentTime), lines[old(level.levelNum) - 1])
      && field.text == []
      && totalWords == old(totalWords) + CorrectCount(bs)
      && totalTime == old(totalTime) + old(timer.currentTime)
      && timer.Stopped()
      && lastAdded == old(lastAdded) && level.levelNum == old(level.levelNum)
      && level.gameOver == old(level.gameOver) && level.flyingOut == old(level.flyingOut)
    }

    /** The end-of-level branch of move_next_bottle, taken once no bottle is in view. */
    method FinishLevel(now: real)
      requires Valid() && |bottles| > 0
      modifies this`paused, this`lastAddedSave, this`totalWords, this`totalTime, timer, bottles
      modifies level`ended, level`missed, level`message, level`correct, level`shownWpm, level`attribution
      modifies field`text
      ensures Valid() && Finished(now)
    {
      ghost var bs, time := States(), timer.currentTime;
      // end_level neither reads nor writes the text field, so clearing it first gives the
      // same state as the source's order.
      field.text := [];
      timer.Pause();
      assert States() == bs && timer.currentTime == time;
      level.EndLevel(this, now, bs, time);
    }

    /** The resuming half of play: the level and admission clocks restart at `now`, every bottle plays. */
    method Resume(now: real)
      requires Valid()
      modifies this`paused, this`lastAdded, timer, bottles
      ensures Valid() && !paused && lastAdded == Some(now)
      ensures timer.started && timer.startTime == Some(now)
      ensures timer.currentTime == old(timer.currentTime) && timer.savedTime == old(timer.savedTime)
      ensures States() == PlayAll(old(States()), now)
    {
      timer.Start(now);
      lastAdded := Some(now);
      paused := false;
      PlayBottles(now);
    }

    /** The loop of play over the bottles. */
    method PlayBottles(now: real)
      requires Valid()
      modifies bottles
      ensures States() == PlayAll(old(States()), now)
    {
      ghost var s0 := States();
      for i := 0 to |bottles|
        invariant forall j :: 0 <= j < i ==> bottles[j].State() == s0[j].Played(now)
        invariant forall j :: i <= j < |bottles| ==> bottles[j].State() == s0[j]
      {
        bottles[i].Play(now);
      }
    }

    /**
     * play: a no-op when running; otherwise the first play starts the game by admitting a
     * bottle, and then the clocks restart and every bottle plays.
     */
    method Play(now: real)
      requires Valid()
      modifies this, timer, level, field, bottles
      ensures Valid()
      ensures !old(paused) ==> unchanged(this, timer, level, field) && States() == old(States())
      ensures old(paused) ==> !paused && started && lastAdded == Some(now) && timer.started
      ensures old(paused) ==> forall i :: 0 <= i < |bottles| ==> !States()[i].paused
      ensures old(paused) && old(started) ==>
        bottles == old(bottles) && States() == PlayAll(old(States()), now)
        && lastAddedSave == old(lastAddedSave) && totalWords == old(totalWords)
        && totalTime == old(totalTime) && wpm == old(wpm)
        && unchanged(level, field) && timer.startTime == Some(now)
        && timer.currentTime == old(timer.currentTime) && timer.savedTime == old(timer.savedTime)
    {
      if !paused {
        return;
      }
      if !started {
        started := true;
        MoveNextBottle(now);
      }
      Resume(now);
    }

    /** A running game whose admission clock has run past the interval at `now`. */
    predicate Due(now: real)
      reads this
    {
      !paused && lastAdded.Some? && AdmissionDue(lastAdded.value, lastAddedSave, wpm, now) == Some(true)
    }

    /**
     * The admission test of update: on a running game whose admission clock has run past the
     * interval, the next bottle is admitted. `divByZero` reports the pace at which the
     * interval divides by zero, and then nothing changes.
     */
    method SpawnIfDue(now: real) returns (divByZero: bool)
      requires Valid()
      modifies this, timer, level, field, bottles
      ensures Valid()
      ensures divByZero <==> !old(paused) && old(lastAdded).Some? && SpawnInterval(old(wpm)).None?
      ensures old(Due(now)) ==> SpawnedNext(now)
      ensures !old(Due(now)) ==> unchanged(this, timer, level, field) && States() == old(States())
    {
      divByZero := false;
      if paused || lastAdded.None? {
        return;
      }
      var interval := SpawnInterval(wpm);
      if interval.None? {
        divByZero := true;
        return;
      }
      if now - lastAdded.value + lastAddedSave > interval.value {
        MoveNextBottle(now);
      }
    }
  }
}
