/**
 * The pieces of Python's `str` and `re` that the scraper leans on:
 * whitespace as `str.isspace` (and a `\s` in a `str` pattern) sees it,
 * `strip`, the substitution of `\s+` by one space, ASCII case mapping,
 * `in`, `replace(pat, "")`, `title`, slicing and `str(n)` for integers.
 */
module Strings {

  /** The characters for which `str.isspace()` holds; `\s` matches exactly these. */
  predicate IsSpace(c: char) {
    || c == ' ' || '\t' <= c <= '\r' || '\U{1c}' <= c <= '\U{1f}'
    || c == '\U{85}' || c == '\U{a0}' || c == '\U{1680}'
    || '\U{2000}' <= c <= '\U{200a}' || c == '\U{2028}' || c == '\U{2029}'
    || c == '\U{202f}' || c == '\U{205f}' || c == '\U{3000}'
  }

  /** `s.lstrip()`: the longest suffix of `s` that does not start with whitespace. */
  function LStrip(s: string): (r: string)
    ensures |r| <= |s| && r == s[|s| - |r|..]
    ensures r == [] || !IsSpace(r[0])
  {
    if s != [] && IsSpace(s[0]) then LStrip(s[1..]) else s
  }

  /** Everything `lstrip` cuts away is whitespace. */
  lemma {:induction false} LStripCuts(s: string)
    ensures forall i :: 0 <= i < |s| - |LStrip(s)| ==> IsSpace(s[i])
    decreases |s|
  {
    if s != [] && IsSpace(s[0]) {
      LStripCuts(s[1..]);
      forall i | 1 <= i < |s| - |LStrip(s)| ensures IsSpace(s[i]) {
        assert s[i] == s[1..][i - 1];
      }
    }
  }

  /** `s.rstrip()`: the longest prefix of `s` that does not end with whitespace. */
  function RStrip(s: string): (r: string)
    ensures |r| <= |s| && r == s[..|r|]
    ensures r == [] || !IsSpace(r[|r| - 1])
  {
    if s != [] && IsSpace(s[|s| - 1]) then RStrip(s[..|s| - 1]) else s
  }

  /** Everything `rstrip` cuts away is whitespace. */
  lemma {:induction false} RStripCuts(s: string)
    ensures forall i :: |RStrip(s)| <= i < |s| ==> IsSpace(s[i])
    decreases |s|
  {
    if s != [] && IsSpace(s[|s| - 1]) {
      RStripCuts(s[..|s| - 1]);
      forall i | |RStrip(s)| <= i < |s| - 1 ensures IsSpace(s[i]) {
        assert s[i] == s[..|s| - 1][i];
      }
    }
  }

  /** `s.strip()`. */
  function Strip(s: string): (r: string)
    ensures |r| <= |s|
    ensures r == [] || (!IsSpace(r[0]) && !IsSpace(r[|r| - 1]))
  {
    RStrip(LStrip(s))
  }

  /** Text with no whitespace at either end is its own `strip()`. */
  lemma StripTrimmed(s: string)
    requires s != [] && !IsSpace(s[0]) && !IsSpace(s[|s| - 1])
    ensures Strip(s) == s
  {
    assert LStrip(s) == s;
  }

  /** `s.strip()` is the slice `s[lo..lo + |r|]`, and everything cut away is whitespace. */
  lemma {:induction false} StripBounds(s: string) returns (lo: nat)
    ensures lo + |Strip(s)| <= |s| && Strip(s) == s[lo..lo + |Strip(s)|]
    ensures forall i :: 0 <= i < lo ==> IsSpace(s[i])
    ensures forall i :: lo + |Strip(s)| <= i < |s| ==> IsSpace(s[i])
  {
    lo := |s| - |LStrip(s)|;
    LStripCuts(s);
    StripSlice(s, lo);
    StripTailSpaces(s, lo);
  }

  lemma StripSlice(s: string, lo: nat)
    requires lo == |s| - |LStrip(s)|
    ensures lo + |Strip(s)| <= |s| && Strip(s) == s[lo..lo + |Strip(s)|]
  {
    var l := LStrip(s);
    var r := RStrip(l);
    assert Strip(s) == r;
    SliceOfSuffix(s, lo, |r|);
  }

  lemma SliceOfSuffix<T>(s: seq<T>, lo: nat, k: nat)
    requires lo + k <= |s|
    ensures s[lo..][..k] == s[lo..lo + k]
  {
  }

  lemma StripTailSpaces(s: string, lo: nat)
    requires lo == |s| - |LStrip(s)|
    ensures forall i :: lo + |Strip(s)| <= i < |s| ==> IsSpace(s[i])
  {
    var l := LStrip(s);
    assert l == s[lo..];
    RStripCuts(l);
    ShiftedTail(s, lo, |RStrip(l)|, IsSpace);
  }

  /** What holds of the tail of `s[lo..]` from `k` on holds of `s` from `lo + k` on. */
  lemma ShiftedTail(s: string, lo: nat, k: nat, p: char -> bool)
    requires lo + k <= |s|
    requires forall j :: k <= j < |s| - lo ==> p(s[lo..][j])
    ensures forall i :: lo + k <= i < |s| ==> p(s[i])
  {
    forall i | lo + k <= i < |s| ensures p(s[i]) {
      assert s[i] == s[lo..][i - lo];
    }
  }

  /** The string with every whitespace character deleted. */
  function NonSpace(s: string): string {
    if s == [] then [] else (if IsSpace(s[0]) then [] else [s[0]]) + NonSpace(s[1..])
  }

  lemma {:induction false} NonSpaceAppend(a: string, b: string)
    ensures NonSpace(a + b) == NonSpace(a) + NonSpace(b)
  {
    if a != [] {
      assert (a + b)[0] == a[0];
      assert (a + b)[1..] == a[1..] + b;
      NonSpaceAppend(a[1..], b);
    } else {
      assert a + b == b;
    }
  }

  lemma {:induction false} NonSpaceOfSpaces(s: string)
    requires forall i :: 0 <= i < |s| ==> IsSpace(s[i])
    ensures NonSpace(s) == []
  {
    if s != [] {
      NonSpaceOfSpaces(s[1..]);
    }
  }

  /** A text that does not open with whitespace is empty exactly when it has no
      character other than whitespace. */
  lemma NonSpaceOfTrimmed(t: string)
    requires t == [] || !IsSpace(t[0])
    ensures t == [] <==> NonSpace(t) == []
  {
  }

  /** Every whitespace character of `t` is a plain space. */
  ghost predicate SpacesAreBlank(t: string) {
    forall i :: 0 <= i < |t| && IsSpace(t[i]) ==> t[i] == ' '
  }

  /** No two adjacent characters of `t` are both whitespace. */
  ghost predicate NoDoubleSpace(t: string) {
    forall i, j :: 0 <= i && j == i + 1 && j < |t| ==> !(IsSpace(t[i]) && IsSpace(t[j]))
  }

  /** The shape `re.sub(r'\s+', ' ', s).strip()` always produces. */
  ghost predicate Collapsed(t: string) {
    && (t == [] || (!IsSpace(t[0]) && !IsSpace(t[|t| - 1])))
    && SpacesAreBlank(t)
    && NoDoubleSpace(t)
  }

  /** Putting `c` in front of a text of the squashed shape keeps that shape, as
      long as `c` is a plain space or no whitespace at all and does not make a pair
      of whitespace characters. */
  lemma ConsKeepsShape(c: char, t: string)
    requires SpacesAreBlank(t) && NoDoubleSpace(t)
    requires IsSpace(c) ==> c == ' ' && (t == [] || !IsSpace(t[0]))
    ensures SpacesAreBlank([c] + t) && NoDoubleSpace([c] + t)
  {
    var r := [c] + t;
    forall i, j | 0 <= i && j == i + 1 && j < |r|
      ensures !(IsSpace(r[i]) && IsSpace(r[j]))
    {
      if i > 0 {
        assert r[i] == t[i - 1] && r[j] == t[j - 1];
      }
    }
  }

  /** `re.sub(r'\s+', ' ', s)`: each maximal run of whitespace becomes one space. */
  function SquashSpaces(s: string): (r: string)
    ensures SpacesAreBlank(r) && NoDoubleSpace(r)
    ensures NonSpace(r) == NonSpace(s)
    ensures s != [] && !IsSpace(s[0]) ==> r != [] && r[0] == s[0]
    ensures r == [] ==> s == []
    decreases |s|
  {
    if s == [] then []
    else if IsSpace(s[0]) then
      var rest := LStrip(s);
      LStripCuts(s);
      assert s == s[..|s| - |rest|] + rest;
      NonSpaceAppend(s[..|s| - |rest|], rest);
      NonSpaceOfSpaces(s[..|s| - |rest|]);
      var tail := SquashSpaces(rest);
      ConsKeepsShape(' ', tail);
      [' '] + tail
    else
      assert s == [s[0]] + s[1..];
      var tail := SquashSpaces(s[1..]);
      ConsKeepsShape(s[0], tail);
      [s[0]] + tail
  }

  /** Stripping keeps the spacing shape and deletes whitespace only. */
  lemma {:induction false} StripKeepsShape(q: string)
    ensures SpacesAreBlank(q) ==> SpacesAreBlank(Strip(q))
    ensures NoDoubleSpace(q) ==> NoDoubleSpace(Strip(q))
    ensures NonSpace(Strip(q)) == NonSpace(q)
  {
    var lo := StripBounds(q);
    var hi := lo + |Strip(q)|;
    SliceKeepsSpacing(q, lo, hi);
    TrimKeepsNonSpace(q, lo, hi);
  }

  lemma {:induction false} SliceKeepsSpacing(q: string, lo: nat, hi: nat)
    requires lo <= hi <= |q|
    ensures SpacesAreBlank(q) ==> SpacesAreBlank(q[lo..hi])
    ensures NoDoubleSpace(q) ==> NoDoubleSpace(q[lo..hi])
  {
    var r := q[lo..hi];
    assert forall i :: 0 <= i < |r| ==> r[i] == q[lo + i];
  }

  /** Cutting whitespace off both ends deletes no other character. */
  lemma {:induction false} TrimKeepsNonSpace(q: string, lo: nat, hi: nat)
    requires lo <= hi <= |q|
    requires forall i :: 0 <= i < lo ==> IsSpace(q[i])
    requires forall i :: hi <= i < |q| ==> IsSpace(q[i])
    ensures NonSpace(q[lo..hi]) == NonSpace(q)
  {
    NonSpaceSplit(q, lo, hi);
    NonSpaceOfSpaces(q[..lo]);
    NonSpaceOfSpaces(q[hi..]);
  }

  lemma {:induction false} NonSpaceSplit(q: string, lo: nat, hi: nat)
    requires lo <= hi <= |q|
    ensures NonSpace(q) == NonSpace(q[..lo]) + NonSpace(q[lo..hi]) + NonSpace(q[hi..])
  {
    assert q == q[..lo] + q[lo..hi] + q[hi..];
    NonSpaceAppend(q[..lo] + q[lo..hi], q[hi..]);
    NonSpaceAppend(q[..lo], q[lo..hi]);
  }

  /** `re.sub(r'\s+', ' ', s).strip()`: the title clean-up. */
  function Collapse(s: string): (r: string)
    ensures Collapsed(r)
    ensures NonSpace(r) == NonSpace(s)
  {
    StripKeepsShape(SquashSpaces(s));
    Strip(SquashSpaces(s))
  }

  lemma {:induction false} SquashFixesShaped(t: string)
    requires SpacesAreBlank(t) && NoDoubleSpace(t)
    ensures SquashSpaces(t) == t
  {
    if t != [] {
      if IsSpace(t[0]) {
        assert |t| > 1 ==> !IsSpace(t[1]);
        assert LStrip(t[1..]) == t[1..];
        SquashFixesShaped(t[1..]);
      } else {
        SquashFixesShaped(t[1..]);
      }
    }
  }

  /** A collapsed string is left alone by the clean-up. */
  lemma CollapseFixesCollapsed(t: string)
    requires Collapsed(t)
    ensures Collapse(t) == t
  {
    SquashFixesShaped(t);
  }

  /** The clean-up is idempotent. */
  lemma CollapseIdempotent(s: string)
    ensures Collapse(Collapse(s)) == Collapse(s)
  {
    CollapseFixesCollapsed(Collapse(s));
  }

  // ------------------------------------------------------------------ words

  /** A non-empty run of characters none of which is whitespace. */
  ghost predicate IsWord(w: string) {
    w != [] && forall i :: 0 <= i < |w| ==> !IsSpace(w[i])
  }

  /** The leading run of non-whitespace characters of `s`. */
  function WordAt(s: string): (w: string)
    ensures |w| <= |s| && w == s[..|w|]
    ensures s != [] && !IsSpace(s[0]) ==> w != []
  {
    if s == [] || IsSpace(s[0]) then [] else [s[0]] + WordAt(s[1..])
  }

  /** `s.split()`: the maximal runs of non-whitespace characters, in order. */
  function Words(s: string): seq<string>
    decreases |s|
  {
    var t := LStrip(s);
    if t == [] then [] else [WordAt(t)] + Words(t[|WordAt(t)|..])
  }

  /** `" ".join(ws)`. */
  function Unwords(ws: seq<string>): string {
    if ws == [] then [] else if |ws| == 1 then ws[0] else ws[0] + " " + Unwords(ws[1..])
  }

  /** The clean-up is `" ".join(s.split())`: the words of `s`, in order, one
      space between neighbours and none at the ends. */
  lemma CollapseJoinsWords(s: string)
    ensures Collapse(s) == Unwords(Words(s))
  {
    SquashJoinsWords(s);
  }

  lemma {:induction false} SquashJoinsWords(s: string)
    ensures Strip(SquashSpaces(s)) == Unwords(Words(s))
    decreases |s|
  {
    var t := LStrip(s);
    assert Strip(SquashSpaces(s)) == Strip(SquashSpaces(t)) && Words(s) == Words(t) by {
      SquashLeadingSpaces(s);
      LStripTwice(s);
    }
    if t != [] {
      var w := WordAt(t);
      var t' := LStrip(t[|w|..]);
      assert Words(t) == [w] + Words(t') by {
        WordsStep(t);
      }
      if t' == [] {
        assert Strip(SquashSpaces(t)) == w by {
          CollapseLastWord(t);
        }
        assert Words(t') == [];
      } else {
        SquashJoinsWords(t');
        assert Strip(SquashSpaces(t)) == w + " " + Strip(SquashSpaces(t')) by {
          CollapseNextWord(t);
        }
        assert Unwords([w] + Words(t')) == w + " " + Unwords(Words(t')) by {
          WordsNonEmpty(t');
          UnwordsCons(w, Words(t'));
        }
        JoinChain(Strip(SquashSpaces(s)), Strip(SquashSpaces(t)), Strip(SquashSpaces(t')),
                  w, Words(s), Words(t), Words(t'));
      }
    }
  }

  lemma JoinChain(a: string, b: string, c: string, w: string,
                  ws: seq<string>, wt: seq<string>, wt': seq<string>)
    requires a == b && ws == wt && wt == [w] + wt'
    requires b == w + " " + c && c == Unwords(wt')
    requires Unwords([w] + wt') == w + " " + Unwords(wt')
    ensures a == Unwords(ws)
  {
  }

  /** Joining one more word in front adds it and a space. */
  lemma UnwordsCons(w: string, ws: seq<string>)
    requires ws != []
    ensures Unwords([w] + ws) == w + " " + Unwords(ws)
  {
    assert ([w] + ws)[1..] == ws;
  }

  /** The words of a text that opens with a word: that word, then the words of the rest. */
  lemma WordsStep(t: string)
    requires t != [] && !IsSpace(t[0])
    ensures Words(t) == [WordAt(t)] + Words(LStrip(t[|WordAt(t)|..]))
  {
    LStripTwice(t[|WordAt(t)|..]);
  }

  lemma WordsNonEmpty(t: string)
    requires t != [] && !IsSpace(t[0])
    ensures Words(t) != []
  {
  }

  /** A text holding one word, perhaps with whitespace after it, cleans up to that word. */
  lemma CollapseLastWord(t: string)
    requires t != [] && !IsSpace(t[0]) && LStrip(t[|WordAt(t)|..]) == []
    ensures Strip(SquashSpaces(t)) == WordAt(t)
  {
    WordAtIsWord(t);
    SquashWord(t);
    SquashBlank(t[|WordAt(t)|..]);
    StripWord(WordAt(t));
  }

  /** A text opening with a word and more words after it cleans up to that word,
      one space, and the clean-up of the rest. */
  lemma CollapseNextWord(t: string)
    requires t != [] && !IsSpace(t[0]) && LStrip(t[|WordAt(t)|..]) != []
    ensures Strip(SquashSpaces(t)) == WordAt(t) + " " + Strip(SquashSpaces(LStrip(t[|WordAt(t)|..])))
  {
    var x := SquashSpaces(LStrip(t[|WordAt(t)|..]));
    SquashNextWord(t);
    WordAtIsWord(t);
    StripJoin(WordAt(t), x);
  }

  lemma SquashNextWord(t: string)
    requires t != [] && !IsSpace(t[0]) && LStrip(t[|WordAt(t)|..]) != []
    ensures SquashSpaces(t) == WordAt(t) + " " + SquashSpaces(LStrip(t[|WordAt(t)|..]))
  {
    var w := WordAt(t);
    var rest := t[|w|..];
    WordAtIsWord(t);
    SquashWord(t);
    SquashSpaceHead(rest);
    Glue(SquashSpaces(t), SquashSpaces(rest), w, SquashSpaces(LStrip(rest)));
  }

  lemma Glue(a: string, b: string, w: string, y: string)
    requires a == w + b && b == [' '] + y
    ensures a == w + " " + y
  {
  }

  /** A whitespace run at the front squashes to one space. */
  lemma SquashSpaceHead(r: string)
    requires r != [] && IsSpace(r[0])
    ensures SquashSpaces(r) == [' '] + SquashSpaces(LStrip(r))
  {
  }

  /** Stripping a word, a space and a text that opens with a non-space strips
      only that text's end. */
  lemma StripJoin(w: string, x: string)
    requires IsWord(w) && x != [] && !IsSpace(x[0])
    ensures Strip(w + " " + x) == w + " " + Strip(x)
  {
    RStripKeepsHead(x);
    assert LStrip(x) == x;
    RStripAppend(w + " ", x);
    assert (w + " " + x)[0] == w[0];
    assert LStrip(w + " " + x) == w + " " + x;
  }

  /** The clean-up keeps the words of the text, in order: only the whitespace
      between and around them changes. */
  lemma WordsOfCollapse(s: string)
    ensures Words(Collapse(s)) == Words(s)
  {
    CollapseJoinsWords(s);
    WordsAreWords(s);
    WordsOfUnwords(Words(s));
  }

  lemma {:induction false} WordsAreWords(s: string)
    ensures forall i :: 0 <= i < |Words(s)| ==> IsWord(Words(s)[i])
    decreases |s|
  {
    var t := LStrip(s);
    if t != [] {
      var w := WordAt(t);
      var tail := t[|w|..];
      WordAtIsWord(t);
      WordsAreWords(tail);
      WordsCons(s, w, tail);
    }
  }

  lemma WordsCons(s: string, w: string, tail: string)
    requires LStrip(s) != [] && w == WordAt(LStrip(s)) && tail == LStrip(s)[|w|..]
    requires IsWord(w) && forall i :: 0 <= i < |Words(tail)| ==> IsWord(Words(tail)[i])
    ensures forall i :: 0 <= i < |Words(s)| ==> IsWord(Words(s)[i])
  {
    var rest := Words(tail);
    assert Words(s) == [w] + rest;
    forall i | 0 < i < |Words(s)| ensures IsWord(Words(s)[i]) {
      assert Words(s)[i] == rest[i - 1];
    }
  }

  /** Splitting what was joined with single spaces gives back the words. */
  lemma {:induction false} WordsOfUnwords(ws: seq<string>)
    requires forall i :: 0 <= i < |ws| ==> IsWord(ws[i])
    ensures Words(Unwords(ws)) == ws
  {
    if |ws| == 1 {
      WordsOfOne(ws);
    } else if |ws| > 1 {
      WordsOfUnwords(ws[1..]);
      WordsOfMore(ws, Unwords(ws[1..]));
    }
  }

  lemma WordsOfOne(ws: seq<string>)
    requires |ws| == 1 && IsWord(ws[0])
    ensures Words(Unwords(ws)) == ws
  {
    var w := ws[0];
    assert Words(w) == [w] by {
      WordsOfJoin(w, []);
      assert w + [] == w;
    }
    assert Unwords(ws) == w;
  }

  lemma WordsOfMore(ws: seq<string>, u: string)
    requires |ws| > 1 && forall i :: 0 <= i < |ws| ==> IsWord(ws[i])
    requires u == Unwords(ws[1..]) && Words(u) == ws[1..]
    ensures Words(Unwords(ws)) == ws
  {
    var w := ws[0];
    assert Words(w + (" " + u)) == [w] + ws[1..] by {
      UnwordsHead(ws[1..]);
      WordsOfJoin(w, " " + u);
      WordsAfterSpace(u);
    }
    assert Unwords(ws) == w + (" " + u);
    ConsOfTail(ws);
  }

  lemma ConsOfTail<T>(s: seq<T>)
    requires s != []
    ensures [s[0]] + s[1..] == s
  {
  }

  /** The words of a word followed by the end or by whitespace: that word, then the rest's. */
  lemma WordsOfJoin(w: string, rest: string)
    requires IsWord(w) && (rest == [] || IsSpace(rest[0]))
    ensures Words(w + rest) == [w] + Words(rest)
  {
    WordAtOfWord(w, rest);
    assert (w + rest)[0] == w[0];
    assert LStrip(w + rest) == w + rest;
    assert (w + rest)[|w|..] == rest;
    LStripTwice(rest);
  }

  /** A single space in front changes no words. */
  lemma WordsAfterSpace(u: string)
    ensures Words(" " + u) == Words(u)
  {
    assert (" " + u)[1..] == u;
    assert LStrip(" " + u) == LStrip(u);
  }

  /** The leading word of a word followed by the end or by whitespace is that word. */
  lemma {:induction false} WordAtOfWord(w: string, rest: string)
    requires IsWord(w) && (rest == [] || IsSpace(rest[0]))
    ensures WordAt(w + rest) == w
    decreases |w|
  {
    assert (w + rest)[1..] == w[1..] + rest;
    if |w| > 1 {
      WordAtOfWord(w[1..], rest);
    } else {
      assert w[1..] + rest == rest;
    }
  }

  /** Joined words start with the first word's first character. */
  lemma UnwordsHead(ws: seq<string>)
    requires ws != [] && forall i :: 0 <= i < |ws| ==> IsWord(ws[i])
    ensures ws[0] != [] && Unwords(ws) != [] && Unwords(ws)[0] == ws[0][0]
  {
    assert IsWord(ws[0]);
  }

  /** Leading whitespace changes neither the clean-up nor the words. */
  lemma SquashLeadingSpaces(s: string)
    ensures Strip(SquashSpaces(s)) == Strip(SquashSpaces(LStrip(s)))
  {
    if s != [] && IsSpace(s[0]) {
      var x := SquashSpaces(LStrip(s));
      assert ([' '] + x)[1..] == x;
    }
  }

  lemma LStripTwice(s: string)
    ensures LStrip(LStrip(s)) == LStrip(s)
    ensures Words(s) == Words(LStrip(s))
  {
  }

  /** A text without words squashes to nothing or to a single space. */
  lemma SquashBlank(s: string)
    requires LStrip(s) == []
    ensures SquashSpaces(s) == [] || SquashSpaces(s) == " "
  {
  }

  /** The leading word of `t` is a word, followed by the end or by whitespace. */
  lemma {:induction false} WordAtIsWord(t: string)
    requires t != [] && !IsSpace(t[0])
    ensures IsWord(WordAt(t))
    ensures |WordAt(t)| < |t| ==> IsSpace(t[|WordAt(t)|])
    decreases |t|
  {
    var w' := WordAt(t[1..]);
    assert WordAt(t) == [t[0]] + w';
    if |t| > 1 && !IsSpace(t[1]) {
      WordAtIsWord(t[1..]);
      if |w'| < |t| - 1 {
        assert t[1..][|w'|] == t[|w'| + 1];
      }
      forall i | 0 < i < |WordAt(t)| ensures !IsSpace(WordAt(t)[i]) {
        assert WordAt(t)[i] == w'[i - 1];
      }
    } else {
      assert w' == [];
    }
  }

  /** Squashing passes over a leading word unchanged. */
  lemma {:induction false} SquashWord(t: string)
    ensures SquashSpaces(t) == WordAt(t) + SquashSpaces(t[|WordAt(t)|..])
    decreases |t|
  {
    if t != [] && !IsSpace(t[0]) {
      SquashWord(t[1..]);
      SquashWordStep(t, WordAt(t[1..]));
    } else {
      assert WordAt(t) == [] && t[0..] == t;
    }
  }

  lemma SquashWordStep(t: string, w': string)
    requires t != [] && !IsSpace(t[0]) && w' == WordAt(t[1..])
    requires SquashSpaces(t[1..]) == w' + SquashSpaces(t[1..][|w'|..])
    ensures SquashSpaces(t) == WordAt(t) + SquashSpaces(t[|WordAt(t)|..])
  {
    var x := SquashSpaces(t[1..][|w'|..]);
    assert t[1..][|w'|..] == t[|w'| + 1..];
    SquashHead(t);
    assert WordAt(t) == [t[0]] + w';
    Glue3([t[0]], w', x);
  }

  lemma SquashHead(t: string)
    requires t != [] && !IsSpace(t[0])
    ensures SquashSpaces(t) == [t[0]] + SquashSpaces(t[1..])
  {
  }

  lemma Glue3<T>(a: seq<T>, b: seq<T>, c: seq<T>)
    ensures a + (b + c) == (a + b) + c
  {
  }

  /** A word, with or without one trailing space, strips to itself. */
  lemma StripWord(w: string)
    requires IsWord(w)
    ensures Strip(w) == w && Strip(w + " ") == w
  {
    StripTrimmed(w);
    assert (w + " ")[..|w|] == w;
    assert LStrip(w + " ") == w + " ";
  }

  /** `rstrip` keeps a first character that is not whitespace. */
  lemma {:induction false} RStripKeepsHead(x: string)
    requires x != [] && !IsSpace(x[0])
    ensures RStrip(x) != [] && RStrip(x)[0] == x[0]
    decreases |x|
  {
    if IsSpace(x[|x| - 1]) {
      RStripKeepsHead(x[..|x| - 1]);
    }
  }

  /** `rstrip` only looks at the tail when the tail has a non-space character. */
  lemma {:induction false} RStripAppend(a: string, x: string)
    requires RStrip(x) != []
    ensures RStrip(a + x) == a + RStrip(x)
    decreases |x|
  {
    if IsSpace(x[|x| - 1]) {
      assert (a + x)[..|a + x| - 1] == a + x[..|x| - 1];
      RStripAppend(a, x[..|x| - 1]);
    }
  }

  predicate IsUpper(c: char) { 'A' <= c <= 'Z' }
  predicate IsLower(c: char) { 'a' <= c <= 'z' }
  predicate IsLetter(c: char) { IsUpper(c) || IsLower(c) }

  function ToLower(c: char): char {
    if IsUpper(c) then (c as int + 32) as char else c
  }

  function ToUpper(c: char): char {
    if IsLower(c) then (c as int - 32) as char else c
  }

  lemma CaseMapping(c: char)
    ensures IsLetter(ToLower(c)) == IsLetter(c) && IsLetter(ToUpper(c)) == IsLetter(c)
    ensures ToLower(ToLower(c)) == ToLower(c) && ToUpper(ToUpper(c)) == ToUpper(c)
    ensures ToLower(ToUpper(c)) == ToLower(c)
  {
  }

  function LowerAll(s: string): string {
    seq(|s|, i requires 0 <= i < |s| => ToLower(s[i]))
  }

  /** `sub in s`. */
  predicate Contains(s: string, sub: string)
    decreases |s|
  {
    sub <= s || (s != [] && Contains(s[1..], sub))
  }

  /** A text lacking the first character of `sub` does not contain `sub`. */
  lemma {:induction false} NotContainsWithoutHead(s: string, sub: string)
    requires sub != [] && forall i :: 0 <= i < |s| ==> s[i] != sub[0]
    ensures !Contains(s, sub)
    decreases |s|
  {
    if s != [] {
      assert !(sub <= s) by {
        assert s[0] != sub[0];
      }
      forall i | 0 <= i < |s[1..]| ensures s[1..][i] != sub[0] {
        assert s[1..][i] == s[i + 1];
      }
      NotContainsWithoutHead(s[1..], sub);
    }
  }

  /** A `re.I` search for the lower-case literal `word` in `s` (ASCII case folding). */
  predicate ContainsIgnoringCase(s: string, word: string) {
    Contains(LowerAll(s), word)
  }

  /** `s.replace(pat, "")`: occurrences are removed left to right, without overlap. */
  function RemoveAll(s: string, pat: string): (r: string)
    requires pat != []
    ensures !Contains(s, pat) ==> r == s
    ensures Contains(s, pat) ==> |r| <= |s| - |pat|
    decreases |s|
  {
    if s == [] then []
    else if pat <= s then RemoveAll(s[|pat|..], pat)
    else [s[0]] + RemoveAll(s[1..], pat)
  }

  /** `replace` works from the left: text before the first occurrence of `pat`
      is kept as it is, that occurrence is dropped, and the rest is processed
      the same way. */
  lemma {:induction false} RemoveAllLeftmost(s: string, pat: string, a: string, b: string)
    requires pat != [] && s == a + pat + b
    requires forall i :: 0 <= i < |a| ==> !(pat <= s[i..])
    ensures RemoveAll(s, pat) == a + RemoveAll(b, pat)
    decreases |a|
  {
    if a == [] {
      assert pat <= s && s[|pat|..] == b by {
        assert s == pat + b;
      }
      RemoveAllHit(s, pat);
    } else {
      assert !(pat <= s) by {
        assert s[0..] == s;
      }
      var s' := s[1..];
      assert s' == a[1..] + pat + b;
      forall i | 0 <= i < |a[1..]| ensures !(pat <= s'[i..]) {
        assert s'[i..] == s[i + 1..];
      }
      RemoveAllLeftmost(s', pat, a[1..], b);
      RemoveAllMiss(s, pat);
      assert s[0] == a[0] && [a[0]] + a[1..] == a;
      Glue3([a[0]], a[1..], RemoveAll(b, pat));
    }
  }

  lemma RemoveAllHit(s: string, pat: string)
    requires pat != [] && pat <= s
    ensures RemoveAll(s, pat) == RemoveAll(s[|pat|..], pat)
  {
  }

  lemma RemoveAllMiss(s: string, pat: string)
    requires pat != [] && s != [] && !(pat <= s)
    ensures RemoveAll(s, pat) == [s[0]] + RemoveAll(s[1..], pat)
  {
  }

  function TitleFrom(s: string, afterLetter: bool): (r: string)
    ensures |r| == |s|
    ensures s != [] ==> r[0] == if afterLetter then ToLower(s[0]) else ToUpper(s[0])
    ensures forall i :: 0 < i < |s| ==> r[i] == if IsLetter(s[i - 1]) then ToLower(s[i]) else ToUpper(s[i])
  {
    if s == [] then []
    else
      [if afterLetter then ToLower(s[0]) else ToUpper(s[0])] + TitleFrom(s[1..], IsLetter(s[0]))
  }

  /** `s.title()` over ASCII letters: a letter is upper-cased exactly when it is
      the first character or follows a non-letter, and lower-cased otherwise. */
  function Title(s: string): (r: string)
    ensures |r| == |s|
    ensures forall i :: 0 <= i < |s| ==>
      r[i] == if i == 0 || !IsLetter(s[i - 1]) then ToUpper(s[i]) else ToLower(s[i])
  {
    TitleFrom(s, false)
  }

  /** Title-casing changes only the case of letters. */
  lemma TitleKeepsLetters(s: string)
    ensures LowerAll(Title(s)) == LowerAll(s)
  {
    var t := Title(s);
    forall i | 0 <= i < |s| ensures LowerAll(t)[i] == LowerAll(s)[i] {
      CaseMapping(s[i]);
      assert t[i] == if i == 0 || !IsLetter(s[i - 1]) then ToUpper(s[i]) else ToLower(s[i]);
    }
  }

  lemma TitleIdempotent(s: string)
    ensures Title(Title(s)) == Title(s)
  {
    var t := Title(s);
    forall i | 0 <= i < |s| ensures Title(t)[i] == t[i] {
      CaseMapping(s[i]);
      if i > 0 {
        var k := i - 1;
        CaseMapping(s[k]);
        assert t[k] == if k == 0 || !IsLetter(s[k - 1]) then ToUpper(s[k]) else ToLower(s[k]);
      }
    }
  }

  /** A host part of lower-case letters, a dot, another such part: title-casing
      capitalises the first letter of each part. */
  lemma TitleOfDotted(a: string, b: string)
    requires a != [] && b != []
    requires forall i :: 0 <= i < |a| ==> IsLower(a[i])
    requires forall i :: 0 <= i < |b| ==> IsLower(b[i])
    ensures Title(a + "." + b) == [ToUpper(a[0])] + a[1..] + "." + [ToUpper(b[0])] + b[1..]
  {
    var s := a + "." + b;
    var r := Title(s);
    var t := [ToUpper(a[0])] + a[1..] + "." + [ToUpper(b[0])] + b[1..];
    assert |t| == |s|;
    forall i | 0 <= i < |s| ensures r[i] == t[i] {
      if 0 < i < |a| {
        assert s[i] == a[i] == t[i] && s[i - 1] == a[i - 1];
      } else if i == |a| {
        assert s[i - 1] == a[i - 1] && s[i] == '.' == t[i];
      } else if i == |a| + 1 {
        assert s[i - 1] == '.' && s[i] == b[0];
      } else if i > |a| + 1 {
        var j := i - |a| - 1;
        assert s[i] == b[j] == t[i] && s[i - 1] == b[j - 1];
      }
    }
  }

  predicate IsDigit(c: char) { '0' <= c <= '9' }

  predicate AllDigits(s: string) {
    forall i :: 0 <= i < |s| ==> IsDigit(s[i])
  }

  /** `int(s)` for a string of ASCII digits. */
  function DigitsValue(s: string): nat
    requires AllDigits(s)
    decreases |s|
  {
    if s == [] then 0 else DigitsValue(s[..|s| - 1]) * 10 + (s[|s| - 1] as int - '0' as int)
  }

  lemma DigitsValueOfTwo(s: string)
    requires |s| == 2 && AllDigits(s)
    ensures DigitsValue(s) == (s[0] as int - '0' as int) * 10 + (s[1] as int - '0' as int)
  {
    assert s[..1][..0] == [];
    assert s[..1][0] == s[0];
    assert DigitsValue(s[..1]) == s[0] as int - '0' as int;
  }

  lemma DigitsValueOfFour(s: string)
    requires |s| == 4 && AllDigits(s)
    ensures DigitsValue(s) == (s[0] as int - '0' as int) * 1000 + (s[1] as int - '0' as int) * 100
                              + (s[2] as int - '0' as int) * 10 + (s[3] as int - '0' as int)
  {
    assert s[..3][..2] == s[..2];
    DigitsValueOfTwo(s[..2]);
  }

  function DigitChar(d: nat): (c: char)
    requires d < 10
    ensures IsDigit(c) && c as int - '0' as int == d
  {
    ('0' as int + d) as char
  }

  /** `str(n)` for a natural number. */
  function NatToString(n: nat): string {
    if n < 10 then [DigitChar(n)] else NatToString(n / 10) + [DigitChar(n % 10)]
  }

  /** `str(n)` is a string of decimal digits that reads back as `n`, with no
      leading zero. */
  lemma {:induction false} NatToStringDigits(n: nat)
    ensures var r := NatToString(n);
      |r| >= 1 && AllDigits(r) && DigitsValue(r) == n && (|r| > 1 ==> r[0] != '0')
  {
    if n >= 10 {
      NatToStringDigits(n / 10);
      var r := NatToString(n);
      assert r[..|r| - 1] == NatToString(n / 10);
      assert r[0] == NatToString(n / 10)[0];
    }
  }

  function Zeros(k: nat): string {
    if k == 0 then [] else Zeros(k - 1) + ['0']
  }

  lemma {:induction false} ZerosDigits(k: nat)
    ensures |Zeros(k)| == k && AllDigits(Zeros(k)) && DigitsValue(Zeros(k)) == 0
  {
    if k > 0 {
      ZerosDigits(k - 1);
      assert Zeros(k)[..k - 1] == Zeros(k - 1);
    }
  }

  lemma {:induction false} LeadingZeros(z: string, t: string)
    requires AllDigits(z) && DigitsValue(z) == 0 && AllDigits(t)
    ensures AllDigits(z + t) && DigitsValue(z + t) == DigitsValue(t)
  {
    if t != [] {
      assert (z + t)[..|z + t| - 1] == z + t[..|t| - 1];
      LeadingZeros(z, t[..|t| - 1]);
    } else {
      assert z + t == z;
    }
  }

  /** `"%0*d" % (width, n)`: `str(n)` left-padded with zeros to `width` characters. */
  function ZeroPad(n: nat, width: nat): string {
    var t := NatToString(n);
    Zeros(if width < |t| then 0 else width - |t|) + t
  }

  /** The padded text still reads back as `n`, and is exactly `width` long
      unless `str(n)` is longer. */
  lemma ZeroPadDigits(n: nat, width: nat)
    ensures AllDigits(ZeroPad(n, width)) && DigitsValue(ZeroPad(n, width)) == n
    ensures |ZeroPad(n, width)| == if width < |NatToString(n)| then |NatToString(n)| else width
  {
    var t := NatToString(n);
    var k := if width < |t| then 0 else width - |t|;
    NatToStringDigits(n);
    ZerosDigits(k);
    LeadingZeros(Zeros(k), t);
  }

  /** `s[:n]`. */
  function Take<T>(s: seq<T>, n: nat): (r: seq<T>)
    ensures |r| == if |s| < n then |s| else n
    ensures r == s[..|r|]
  {
    if |s| < n then s else s[..n]
  }
}
