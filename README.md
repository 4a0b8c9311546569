# Shipwrecked, modelled in Dafny

Shipwrecked is a typing game. Each level takes one line of text and turns every word into a
bottle. Bottles drift into view one at a time. The pace, in words per minute, is the larger
of the level's bottle count and the player's average. Typing a word followed by space
removes the first bottle in view that carries it, and so does return, but only while
exactly one word is still pending. A level ends once every bottle has been brought into
view and none is left in view. It is then graded from the typed words: the panel lists them
with each run of missed words shown as one "... ", and a level is incomplete only when a
word was missed and fewer than 90% were typed. Each level has a clock that pauses with the
game and stops counting at 60 seconds. Reaching 60 seconds ends nothing: the clock's
`is_finished` is never called. The cap only limits the time logged into the session totals
and the time used for the level's words per minute.

This project models the simulation behind that game in `shipwrecked.py`, with drawing, sound,
file reading and the wall clock left out:

- `bottles.dfy` (module `Bottles`): a bottle's state as a value (`BottleState`), with its view
  predicates `InView`, `Used`, `HasWord` and `Pending` and its pure transitions `MovedInView`,
  `Played`, `Paused` and `Matched`. The mutable `Bottle` class has methods proved against
  those transitions.
- `clock.dfy` (module `Clock`): the level clock, class `Timer`, with start, pause, reset and
  the clamping update.
- `matching.dfy` (module `Matching`): what committing typed text does to the bottle list.
  `Commit` is the reference definition, and lemmas say bottle by bottle what it changes.
- `scoring.dfy` (module `Scoring`): end-of-level scoring. `MissMessage` is the message as the
  loop builds it. `Render(Collapse(Marks(bs)))` is an independent definition that collapses
  each run of misses into one gap. `Missed` is the grade, with the 90% leniency rule.
- `stats.dfy` (module `Stats`): the session average (one decimal, cut toward zero), the
  per-level words per minute, the admission pace and the admission interval test.
- `script.dfy` (module `Script`): splitting a level's text into words and its attribution.
- `game.dfy` (module `Game`): the objects that drive a level.
  - `TextField`: the submit branch of `process_key`.
  - `Level`: `end_level`, `redo_level`, `next_level`, `set_up_bottles` and the level-start
    step of `update`.
  - `Shipwrecked`: statistics, `move_next_bottle`, `pause`, `play` and the admission test.

Modelling choices:

- Calls to `time.time()` become a `now: real` parameter.
- Python floats become `real`, and Python ints become `int` or `nat`.
- Each object gets the session it works on as a parameter, instead of holding a back
  reference.
- The game keeps its bottles as a `seq<Bottle>` of objects that the methods update in place.
  `States()` reads their values, and the methods are specified by functions on those values.
- Python's `ZeroDivisionError` shows up as `None` or as a returned flag. This covers the
  level's words per minute when the clock reads 0, and the admission interval when the pace
  is 1. The source catches neither error, so the program stops. At shipwrecked.py:391-392
  the error comes from inside `end_level`, after `log_words` has already added the level to
  the session totals and before `move_next_bottle` clears the text field. The model records
  `None` as the level's words per minute and carries on, clearing the text. At
  shipwrecked.py:804-807 nothing has changed when the error is raised, and the model
  changes nothing either.

`move_next_bottle` tests "no word in view" and "no bottle in view" one after the other, and
the second implies the first. `CheckLevel` therefore branches once: with no bottle in view,
`FinishLevel` stops the clock and ends the level; with only no word in view, the clock stops.
This gives the same state as the source's two `if`s.

## Model

| member | source | states |
|---|---|---|
| Bottles.BottleState.InView | shipwrecked.py:39-42 | definition: in view exactly when -120 < x < 1171 |
| Bottles.BottleState.Used | shipwrecked.py:44-47 | definition: used exactly when x < 1171, that is, in view or drifted past the left edge |
| Bottles.BottleState.HasWord | shipwrecked.py:49-52 | definition: the word is still there exactly when `removed` is 0 |
| Bottles.BottleState.Pending | shipwrecked.py:688-695 | definition: a bottle counts toward the last-word test when it is in view with its word, or not yet used |
| Bottles.Bottle.InView | shipwrecked.py:39-42 | the object's test is `InView` of its state |
| Bottles.Bottle.Used | shipwrecked.py:44-47 | the object's test is `Used` of its state |
| Bottles.Bottle.HasWord | shipwrecked.py:49-52 | the object's test is `HasWord` of its state |
| Bottles.Highlight | shipwrecked.py:88-93 | the highlight is `len(w)` when `w` is a prefix of the word and 0 otherwise, including when `w` is longer than the word |
| Bottles.BottleState.MovedInView | shipwrecked.py:60-65 | the bottle enters view at x = 1170 with its start mark at `now` and no saved time; word, highlight and removal are kept |
| Bottles.BottleState.Played | shipwrecked.py:67-72 | a paused bottle resumes with a new start mark; a moving bottle is left as it was |
| Bottles.BottleState.Paused | shipwrecked.py:74-80 | a moving bottle is credited the time since its start mark, once; a paused bottle is unchanged |
| Bottles.BottleState.Matched | shipwrecked.py:82-101 | a typed-out or out-of-view bottle is unchanged and reports no match; otherwise the highlight follows the prefix rule, and the match succeeds and moves `removed` from 0 to 1 exactly when `leave` is set and the text equals the word |
| Bottles.Fresh | shipwrecked.py:14-32 | a new bottle carries its word, is off screen and unused, not typed and not highlighted, is paused with no start mark and no saved time |
| Bottles.FreshAll | shipwrecked.py:422-424 | one fresh bottle per word, in order |
| Bottles.PauseAll | shipwrecked.py:884-886 | every bottle of the list is paused at `now` |
| Bottles.PlayAll | shipwrecked.py:904-906 | every bottle of the list is resumed at `now` |
| Bottles.PauseAllIdempotent | shipwrecked.py:74-80 | pausing the bottles a second time, at any time, changes nothing |
| Bottles.PlayPauseCredit | shipwrecked.py:67-80 | a bottle played at `t0` and paused at `t1`, then paused again, is credited exactly `t1 - t0` |
| Bottles.Bottle.constructor | shipwrecked.py:14-32 | a new bottle object is `Fresh(word)`; the constructor ends by pausing it |
| Bottles.Bottle.MoveInView | shipwrecked.py:60-65 | the object's new state is `MovedInView(now)` of its old state |
| Bottles.Bottle.Play | shipwrecked.py:67-72 | the object's new state is `Played(now)` of its old state |
| Bottles.Bottle.Pause | shipwrecked.py:74-80 | the object's new state is `Paused(now)` of its old state |
| Bottles.Bottle.Match | shipwrecked.py:82-101 | the object's new state and the result are `Matched(w, leave)` of its old state |
| Clock.Timer.constructor | shipwrecked.py:237-247 | a new clock is stopped, reads 0 and has nothing saved |
| Clock.Timer.IsFinished | shipwrecked.py:249-252 | definition: finished exactly when the reading equals the limit |
| Clock.Timer.Pause | shipwrecked.py:259-263 | the clock stops, keeps the time it reports, and saves it as the base to resume from |
| Clock.Timer.Start | shipwrecked.py:265-269 | the clock runs from a start mark at `now` |
| Clock.Timer.Reset | shipwrecked.py:271-276 | the clock stops and reads 0 with nothing saved, so it is not finished |
| Clock.Timer.Update | shipwrecked.py:278-284 | a running clock reads the time since its start plus the saved time, clamped to the limit; a stopped clock keeps its reading; the clock is finished exactly when that sum reaches the limit |
| Matching.Commit | shipwrecked.py:199-205 | reference definition: the bottles are tried in order, each in-view one matched with `leave` set, stopping after the first hit; the list keeps its length |
| Matching.Attempt | shipwrecked.py:202-204 | one turn of the commit loop: the bottle is matched with `leave` set if in view, and the turn stops the loop exactly when the bottle is hit |
| Matching.CommitAt | shipwrecked.py:199-205 | a commit matches exactly the in-view bottles up to and including the first one whose word equals the text, and leaves every other bottle as it was |
| Matching.CommitRemoves | shipwrecked.py:199-205 | after a commit a bottle has its word exactly when it had it before and is not the first hit; words and positions are kept |
| Matching.PrefixExample | shipwrecked.py:88-93 | typing "ca" highlights two letters of "cat" and "car" and none of "dog" |
| Scoring.MissMessage | shipwrecked.py:341-356 | definition: the message as the loop builds it, bottle by bottle ("... " for a miss that follows no miss, the word and a space for a typed word) |
| Scoring.Missed | shipwrecked.py:342-359 | definition: some word was missed and typed / total is below 0.9 |
| Scoring.CorrectCount | shipwrecked.py:344-356 | definition: the number of bottles whose word was typed, the `totalCorrect` of the scoring loop and the count `get_bottles_correct` returns (shipwrecked.py:713-717) |
| Scoring.CommitTypesAtMostOne | shipwrecked.py:199-205 | a commit raises the typed count by exactly one when some bottle is hit, and leaves it unchanged otherwise |
| Scoring.PauseAllMarks | shipwrecked.py:336 | pausing the game keeps every word and which words were typed |
| Scoring.ScoreSameMarks | shipwrecked.py:341-359 | scoring depends only on the words and on which were typed: the message, the count and the grade agree |
| Scoring.MissedIff | shipwrecked.py:342-359 | a level is graded incomplete exactly when a word is missing and 10 × typed < 9 × bottles |
| Scoring.MissedByRatio | shipwrecked.py:342-359 | the flag set in the loop and then cleared at a ratio of 0.9 or more is the grade `Missed` |
| Scoring.NineOfTenPasses | shipwrecked.py:358-359 | nine of ten words typed passes although one was missed |
| Scoring.EightOfTenFails | shipwrecked.py:358-359 | eight of ten words typed fails |
| Scoring.CollapseRun | shipwrecked.py:347-351 | a run of misses of any length contributes one gap |
| Scoring.CollapseSplit | shipwrecked.py:345-356 | a typed word separates the runs on either side, and each side collapses on its own |
| Scoring.MessageRendersCollapse | shipwrecked.py:341-356 | the message the loop builds is each typed word followed by a space, with one "... " for each maximal run of missed bottles |
| Stats.Trunc | shipwrecked.py:706 | `int()` on a float truncates toward zero |
| Stats.OneDecimal | shipwrecked.py:706 | definition: `int(q * 10) / 10`, the rate cut to one decimal toward zero (also at shipwrecked.py:391-392) |
| Stats.OneDecimalBounds | shipwrecked.py:706 | for a non-negative rate the one-decimal cut is a multiple of 0.1, not above the rate and less than 0.1 below it |
| Stats.AvgWpm | shipwrecked.py:702-708 | definition: 0 with no time logged, otherwise `int(words * 60 / seconds * 10) / 10` |
| Stats.AvgWpmBounds | shipwrecked.py:702-708 | the average is 0 while no time is logged; otherwise it is a multiple of 0.1 at most, and less than 0.1 below, the words × 60 / seconds figure: that figure cut to one decimal |
| Stats.LevelWpm | shipwrecked.py:391-392 | the level's words per minute is a division error exactly when the level clock reads 0 |
| Stats.FirstLevelAverage | shipwrecked.py:742-746 | after the first level is logged, the session average equals the figure that level showed |
| Stats.TargetWpm | shipwrecked.py:676-681 | the pace is the larger of the bottle count and the average, and is one of them |
| Stats.Denominator | shipwrecked.py:806 | definition: `wpm + wpm // 10 - 1`, with floor division |
| Stats.SpawnInterval | shipwrecked.py:804-807 | definition: `60 / (wpm + wpm // 10 - 1)`, or `None` where that divides by zero |
| Stats.AdmissionDue | shipwrecked.py:804-807 | definition: the time since the last admission plus the banked time exceeds the interval, or `None` where the interval divides by zero |
| Stats.TwentyWpmInterval | shipwrecked.py:804-807 | at 20 words per minute a bottle is admitted every 60/21 seconds |
| Stats.IntervalPositive | shipwrecked.py:804-807 | above one word per minute the interval exists and is positive |
| Stats.IntervalShrinks | shipwrecked.py:804-807 | a faster pace never lengthens the interval |
| Stats.JustAdmittedNotDue | shipwrecked.py:754-755 | right after an admission, with nothing banked, the next admission is not due |
| Stats.DueAfterInterval | shipwrecked.py:804-807 | once more than an interval has passed since the last admission, the next one is due |
| Stats.DueStaysDue | shipwrecked.py:804-807 | an admission that is due stays due as time passes |
| Script.BeforeBar | shipwrecked.py:420 | the text before the first '\|' is a prefix of the line without '\|', followed by '\|' or the end |
| Script.Source | shipwrecked.py:380-381 | there is an attribution exactly when the line holds a '\|'; it holds no '\|' itself |
| Script.Tokens | shipwrecked.py:422 | definition: `str.split()` read character by character, `cur` holding the word read so far; whitespace ends a word and empty words are dropped |
| Script.TokensWellFormed | shipwrecked.py:422 | splitting yields non-empty words without whitespace, made of the text's own characters |
| Script.TokensKeepText | shipwrecked.py:422 | splitting drops only whitespace: the words run together are the visible characters |
| Script.TokensOfWord | shipwrecked.py:422 | a text with no whitespace splits into itself as the one word, or into no word when it is empty |
| Script.TokensAtSpace | shipwrecked.py:422 | a whitespace character separates words: the text splits into the words before it followed by the words after it; with `TokensOfWord` this determines the split |
| Script.LevelWords | shipwrecked.py:420-422 | definition: the whitespace-separated words of the text before the first '\|', the words a level's bottles are made from |
| Script.LevelWordsWellFormed | shipwrecked.py:420-422 | a level's words are non-empty, hold no whitespace and no '\|', and keep every other character before the '\|' |
| Game.FirstUnused | shipwrecked.py:751-752 | definition: the index of the first bottle not yet used, the bottle the first loop of `move_next_bottle` picks, or none |
| Game.NoWordInView | shipwrecked.py:762-767 | definition: no bottle in view still carries its word, the test `hasWords[0]` records |
| Game.NoneInView | shipwrecked.py:762-767 | definition: no bottle is in view, the test `hasWords[1]` records |
| Game.Spawned | shipwrecked.py:751-756 | only the first unused bottle moves, into view at x = 1170 with a fresh start mark; with none unused nothing changes |
| Game.SpawnAdvances | shipwrecked.py:751-756 | each admission leaves one fewer unused bottle, and the next admission takes a bottle further down the list |
| Game.Tally | shipwrecked.py:341-356 | the loop's message is `MissMessage`, its count is the number of typed words, and a word was missed exactly when not every word was typed |
| Game.Grade | shipwrecked.py:341-392 | the message, count and grade are those of the bottles before the pause; the words per minute and the attribution come from the level clock and the level's line |
| Game.TextField.constructor | shipwrecked.py:153 | a new text field is empty |
| Game.TextField.Submit | shipwrecked.py:199-205 | the bottles become `Commit` of the old bottles under the old text, and the text is cleared |
| Game.TextField.ProcessKey | shipwrecked.py:186-207 | a key-map key that fits is appended; space, or return while exactly one word is pending, submits; any other key changes nothing |
| Game.Level.constructor | shipwrecked.py:296-304 | a new level object is at level 1, not ended, not over and has no flyout, with an empty panel |
| Game.Level.EndLevel | shipwrecked.py:333-395 | the game is paused, the panel shows the message, count and grade of the bottles as they were, with the level's words per minute and attribution, and the totals grow by the typed words and the clock's reading; the level number, the game-over and flyout flags and the admission mark are kept |
| Game.Level.Score | shipwrecked.py:337-392 | the panel is scored from bottles with the same marks as `bs`, and the typed words and the clock's reading are logged |
| Game.Level.RedoLevel | shipwrecked.py:431-440 | the bottles are dropped, the clock is reset with its start mark kept, the level is not ended and its flyout starts |
| Game.Level.NextLevel | shipwrecked.py:442-451 | after the last line the game is over and nothing else changes; otherwise the level number goes up by one and the level is redone |
| Game.Level.Update | shipwrecked.py:397-409 | a finished game, or one with no flyout, is unchanged; a moving flyout sets `started` to whether it has arrived and changes nothing else in the session; once it has finished, the level starts as `StartLevel` states |
| Game.Level.StartLevel | shipwrecked.py:404-407 | the level's fresh bottles are appended, the pace is set, the game plays and the flyout is dropped. On a running game only the bottles, the pace and the flyout change. On a paused, started game the bottles are the new list played at `now`, the clock restarts at `now` keeping its reading, and the level's panel, number and flags, the text field, the totals and the banked time are kept |
| Game.Level.SetUpBottles | shipwrecked.py:417-427 | one fresh bottle per word of the level's line is appended, in order, and the pace becomes `TargetWpm` of the new count and the average |
| Game.Shipwrecked.constructor | shipwrecked.py:581-636 | a new session is paused and not started, with no bottles, no admission, zero totals and level 1 |
| Game.Shipwrecked.GetAvgWpm | shipwrecked.py:702-708 | 0 while no time is logged; otherwise a multiple of 0.1 within 0.1 below the exact words × 60 / seconds, i.e. that figure cut to one decimal |
| Game.Shipwrecked.TryBottle | shipwrecked.py:202-204 | only bottle `i` changes, to the result of `Attempt`, and the result says whether it was hit |
| Game.Shipwrecked.AddBottle | shipwrecked.py:423-424 | one new fresh bottle for the word is appended; the earlier bottles are kept |
| Game.Shipwrecked.SetWpm | shipwrecked.py:676-681 | the pace becomes `TargetWpm` of the bottle count and the average |
| Game.Shipwrecked.IsLastWord | shipwrecked.py:688-695 | true exactly when one bottle is pending: in view with its word, or not yet used |
| Game.Shipwrecked.GetBottlesCorrect | shipwrecked.py:710-717 | the number of typed words; it equals the bottle count exactly when every word was typed |
| Game.Shipwrecked.LogWords | shipwrecked.py:742-746 | the totals grow by the words and the clock's reading, so neither decreases |
| Game.Shipwrecked.Pause | shipwrecked.py:875-888 | a paused game is unchanged; a running game stops the clock, banks the time since the last admission once, and pauses every bottle |
| Game.Shipwrecked.PauseBottles | shipwrecked.py:884-886 | every bottle is paused at `now` |
| Game.Shipwrecked.MoveNextBottle | shipwrecked.py:748-773 | the first unused bottle enters view and the admission clock restarts; with none left in a running level with bottles, the level is checked; otherwise nothing changes |
| Game.Shipwrecked.SpawnAt | shipwrecked.py:751-756 | bottle `i` enters view at `now`, the admission clock restarts, and nothing else changes |
| Game.Shipwrecked.CheckLevel | shipwrecked.py:758-773 | with no word in view the clock stops; with no bottle in view the level also ends and is scored, and the admission mark, the level number and the game-over and flyout flags are kept; otherwise nothing changes |
| Game.Shipwrecked.FinishLevel | shipwrecked.py:769-773 | the clock stops, the level ends and is scored from the bottles as they were, the game is paused and the text field is cleared; the admission mark, the level number and the game-over and flyout flags are kept |
| Game.Shipwrecked.Resume | shipwrecked.py:901-906 | the clock restarts at `now`, the admission mark is `now`, the game runs and every bottle plays |
| Game.Shipwrecked.PlayBottles | shipwrecked.py:905-906 | every bottle is resumed at `now` |
| Game.Shipwrecked.Play | shipwrecked.py:890-906 | a running game is unchanged; a paused game is started (admitting a bottle on a first play) and runs with every bottle playing; a later play only restarts the clock at `now` keeping its reading, marks the admission at `now` and plays every bottle, leaving the level, the text field, the totals and the pace as they were |
| Game.Shipwrecked.Due | shipwrecked.py:804-807 | definition: a running game with an admission mark whose `AdmissionDue` is true |
| Game.Shipwrecked.SpawnIfDue | shipwrecked.py:804-807 | on a running game whose admission is due, the next bottle is admitted; where the interval divides by zero a flag is raised and nothing changes; otherwise nothing changes |

## Left out

- Drawing, fonts, images, the end panel's layout and line wrapping, and the cursor are not
  modelled: they are presentation. Sound playback and the popup and mouse handling of
  `mainloop` are also left out, as I/O.
- `Flyout`, `Ship` and `Winning` are not modelled: they are wall-clock animations. The
  flyout's position is not modelled. Two inputs of `Level.Update` stand for it: `flyoutDone`
  (already finished when the frame starts) and `arrived` (finished after this frame's move).
  `Flyout.update` (shipwrecked.py:486-490) also sets the session's `started`, and
  `Level.Update` models that write. In the source the flyout always reports its arrival on
  the frame before `Level.update` takes the finished branch, so `play` then runs with
  `started` already set. `play`'s first-play branch (shipwrecked.py:897-899) is then skipped,
  and the first bottle comes a frame later from the per-frame `move_next_bottle`
  (shipwrecked.py:800-801). The model's inputs do not force that order: a caller may pass
  `flyoutDone` without an earlier `arrived`. Then `Play` admits the first bottle itself.
  `Level.Update` states the set-up bottles exactly only for a game that is already started.
- The on-screen motion of a bottle in `Bottle.update` (shipwrecked.py:132-140) is float
  arithmetic and is not modelled. It divides by zero for fewer than ten bottles. A bottle's x
  coordinate is state the model sets when it enters view. `Bottle.set_wpm` (shipwrecked.py:54-58)
  and its loop in `set_up_bottles` (shipwrecked.py:428-429) write a bottle's own `wpm`.
  Nothing reads that attribute: the motion at shipwrecked.py:137 uses the bottle count. So
  they change no behaviour and are left out.
- The removal animation is not modelled: `draw_word` keeps raising `removed` past 1 while a
  typed bottle fades. Only `removed != 0` matters to the game, so a hit leaves it at 1.
- The per-frame part of `Shipwrecked.update` (shipwrecked.py:786-801) is not modelled. That
  covers refreshing highlights with `leave` unset, the text field's backspace handling, and the
  call to `move_next_bottle` when no word is in view. `Bottle.Match` with `leave` false gives
  the per-bottle effect.
- The shift-key mapping is not modelled: `Key.Printable` carries the character after the
  mapping, one of the characters the key map can produce (`KeyChar`). The pixel-width limit of the text field is the `fits` input of `ProcessKey`.
- Reading `word_script.txt` and the random choice between a line's variants are not modelled.
  The chosen lines are the constructor's `lines`.
- The wall clock is a `now` parameter. `Timer.Update` requires that `now` is not earlier than
  the last start, as a monotone clock guarantees.
- Python float rounding is not modelled: all time arithmetic is exact over `real`.
- `Script.IsSpace` covers only the ASCII characters that `str.split()` treats as whitespace.
- The session's pace `wpm` is set to 0 in the constructor. The source has no such attribute
  until `set_wpm` first runs.
- Game.Shipwrecked.Play: on the first play it states that the game is started and running and
  that every bottle plays. It does not restate what `move_next_bottle` did to the bottles
  first. A later play is stated in full.
- Game.Level.StartLevel: on a paused game that was not started, it states that the game is
  started and runs, but not what the first play's `move_next_bottle` did to the set-up
  bottles, the level or the totals (that call may even end the level). It states all of these
  exactly when the game was already started, which is the order the source produces.
  `Level.Update` inherits this.
- Game.Shipwrecked.constructor: requires at least one level line. The source accepts an
  empty script and fails with `IndexError` only when the first level is set up
  (shipwrecked.py:420). The model keeps a valid level number from the start instead.
- Game.Shipwrecked.SpawnIfDue: where the source raises `ZeroDivisionError` (a pace of 1),
  the model returns `divByZero` and changes nothing.
- Matching.Commit: its own contract gives only the length. `CommitAt` and `CommitRemoves`
  state what it does.
