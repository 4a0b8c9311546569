/**
 * Turning the chosen text of a level into words (Level.set_up_bottles and the attribution
 * shown by end_level): `line.split("|")[0].split()` and `line.split("|")[1]`.
 */
module Script {
  import opened Wrappers

  /** The characters Python's `str.split()` separates on (the ASCII ones). */
  predicate IsSpace(c: char)
  {
    c == ' ' || c == '\t' || c == '\n' || c == '\r' || (11 <= c as int <= 12) || (28 <= c as int <= 31)
  }

  /** The text before the first '|': `line.split("|")[0]`. */
  function BeforeBar(line: string): (r: string)
    ensures |r| <= |line| && r == line[..|r|]
    ensures forall i :: 0 <= i < |r| ==> r[i] != '|'
    ensures |r| < |line| ==> line[|r|] == '|'
  {
    if line == [] || line[0] == '|' then [] else [line[0]] + BeforeBar(line[1..])
  }

  /** The attribution: the text between the first and second '|', if there is a first. */
  function Source(line: string): (r: Option<string>)
    ensures r.None? <==> |BeforeBar(line)| == |line|
    ensures r.Some? ==> forall i :: 0 <= i < |r.value| ==> r.value[i] != '|'
  {
    var head := BeforeBar(line);
    if |head| == |line| then None else Some(BeforeBar(line[|head| + 1..]))
  }

  /** `s.split()` with `cur` the word being read so far. */
  function Tokens(s: string, cur: string): seq<string>
    decreases |s|
  {
    if s == [] then (if cur == [] then [] else [cur])
    else if IsSpace(s[0]) then (if cur == [] then [] else [cur]) + Tokens(s[1..], [])
    else Tokens(s[1..], cur + [s[0]])
  }

  /** The words of a level: whitespace-separated, before any '|'. */
  function LevelWords(line: string): seq<string>
  {
    Tokens(BeforeBar(line), [])
  }

  function Concat(ws: seq<string>): string
  {
    if ws == [] then [] else ws[0] + Concat(ws[1..])
  }

  /** The non-space characters of `s`, in order. */
  function Visible(s: string): string
  {
    if s == [] then [] else (if IsSpace(s[0]) then [] else [s[0]]) + Visible(s[1..])
  }

  lemma {:induction false} ConcatAppend(a: seq<string>, b: seq<string>)
    ensures Concat(a + b) == Concat(a) + Concat(b)
  {
    if a != [] {
      assert (a + b)[1..] == a[1..] + b;
      ConcatAppend(a[1..], b);
    } else {
      assert a + b == b;
    }
  }

  /** Every word is non-empty and free of whitespace and of the characters of `s` otherwise. */
  lemma {:induction false} TokensWellFormed(s: string, cur: string)
    requires forall i :: 0 <= i < |cur| ==> !IsSpace(cur[i])
    ensures forall w :: w in Tokens(s, cur) ==>
      w != [] && forall i :: 0 <= i < |w| ==> !IsSpace(w[i]) && (w[i] in cur || w[i] in s)
    decreases |s|
  {
    if s != [] {
      if IsSpace(s[0]) {
        TokensWellFormed(s[1..], []);
      } else {
        var c := cur + [s[0]];
        TokensWellFormed(s[1..], c);
        forall w | w in Tokens(s, cur)
          ensures w != [] && forall i :: 0 <= i < |w| ==> !IsSpace(w[i]) && (w[i] in cur || w[i] in s)
        {
          forall i | 0 <= i < |w| ensures w[i] in cur || w[i] in s {
            if w[i] in c { assert w[i] in cur || w[i] == s[0]; }
          }
        }
      }
    }
  }

  /** Splitting loses only whitespace: the words run together are the visible characters. */
  lemma {:induction false} TokensKeepText(s: string, cur: string)
    ensures Concat(Tokens(s, cur)) == cur + Visible(s)
    decreases |s|
  {
    if s == [] {
      if cur != [] { assert Concat([cur]) == cur + Concat([]); }
    } else if IsSpace(s[0]) {
      TokensKeepText(s[1..], []);
      var first := if cur == [] then [] else [cur];
      ConcatAppend(first, Tokens(s[1..], []));
      if cur != [] { assert Concat([cur]) == cur + Concat([]); }
    } else {
      TokensKeepText(s[1..], cur + [s[0]]);
    }
  }

  /**
   * A text without whitespace is one word, or none when it is empty. With `TokensAtSpace`
   * this fixes the split completely: cut at the first whitespace character and recurse.
   */
  lemma {:induction false} TokensOfWord(w: string, cur: string)
    requires forall i :: 0 <= i < |w| ==> !IsSpace(w[i])
    ensures cur + w == [] ==> Tokens(w, cur) == []
    ensures cur + w != [] ==> Tokens(w, cur) == [cur + w]
    decreases |w|
  {
    if w == [] {
      assert cur + w == cur;
    } else {
      TokensOfWord(w[1..], cur + [w[0]]);
      assert cur + [w[0]] + w[1..] == cur + w;
    }
  }

  /** Whitespace separates: the words of a text are those before and those after any blank. */
  lemma {:induction false} TokensAtSpace(a: string, c: char, b: string, cur: string)
    requires IsSpace(c)
    ensures Tokens(a + [c] + b, cur) == Tokens(a, cur) + Tokens(b, [])
    decreases |a|
  {
    var s := a + [c] + b;
    if a == [] {
      assert s == [c] + b && s[1..] == b;
    } else {
      assert s[0] == a[0] && s[1..] == a[1..] + [c] + b;
      if IsSpace(a[0]) {
        TokensAtSpace(a[1..], c, b, []);
        var first := if cur == [] then [] else [cur];
        assert Tokens(s, cur) == first + Tokens(a[1..] + [c] + b, []);
        assert Tokens(a, cur) == first + Tokens(a[1..], []);
      } else {
        TokensAtSpace(a[1..], c, b, cur + [a[0]]);
      }
    }
  }

  /** The words of a level are non-empty, contain no whitespace and no '|', and lose nothing else. */
  lemma LevelWordsWellFormed(line: string)
    ensures forall w :: w in LevelWords(line) ==>
      w != [] && forall i :: 0 <= i < |w| ==> !IsSpace(w[i]) && w[i] != '|'
    ensures Concat(LevelWords(line)) == Visible(BeforeBar(line))
  {
    TokensWellFormed(BeforeBar(line), []);
    TokensKeepText(BeforeBar(line), []);
  }
}
