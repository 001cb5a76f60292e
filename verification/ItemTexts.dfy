/** When two written texts count as the same for the judge (evals/judge.py).

    The judge folds letter case and splits notes at blanks. Here the same is said
    without folding or splitting: two numbers are the same letter by letter up to
    case, and two notes are the same words in the same order, up to case, set with
    any blanks between them. */
module ItemTexts {
  import opened Wrappers
  import opened ItemMatching

  /** One character, or the two cases of one letter between A and Z. */
  predicate SameLetter(c: char, d: char) {
    || c == d
    || ('A' <= c <= 'Z' && d as int - c as int == 'a' as int - 'A' as int)
    || ('A' <= d <= 'Z' && c as int - d as int == 'a' as int - 'A' as int)
  }

  predicate SameLetters(a: string, b: string) {
    |a| == |b| && forall i :: 0 <= i < |a| ==> SameLetter(a[i], b[i])
  }

  predicate Blank(c: char) {
    c == ' ' || c == '\t' || c == '\n' || c == '\r'
  }

  predicate AllBlank(s: string) {
    forall i :: 0 <= i < |s| ==> Blank(s[i])
  }

  /** A word: at least one character, none of them blank. */
  predicate IsWord(s: string) {
    s != "" && forall i :: 0 <= i < |s| ==> !Blank(s[i])
  }

  /** The words, with the gaps before, between and behind them. */
  function Laid(gaps: seq<string>, words: seq<string>): string
    requires |gaps| == |words| + 1
  {
    if words == [] then gaps[0] else gaps[0] + words[0] + Laid(gaps[1..], words[1..])
  }

  /** The text consists of these words, with blanks around them and at least one
      blank between two of them. */
  predicate Written(text: string, words: seq<string>, gaps: seq<string>) {
    && |gaps| == |words| + 1
    && (forall i :: 0 <= i < |gaps| ==> AllBlank(gaps[i]))
    && (forall i :: 0 < i < |words| ==> gaps[i] != "")
    && (forall i :: 0 <= i < |words| ==> IsWord(words[i]))
    && text == Laid(gaps, words)
  }

  predicate SameWords(ws: seq<string>, vs: seq<string>) {
    |ws| == |vs| && forall i :: 0 <= i < |ws| ==> SameLetters(ws[i], vs[i])
  }

  /** Two notes read the same. */
  ghost predicate ReadsTheSame(a: string, b: string) {
    exists ws, gaps, vs, holes :: Written(a, ws, gaps) && Written(b, vs, holes) && SameWords(ws, vs)
  }

  /** No note is an empty one. */
  function TextOf(note: Option<string>): string {
    if note.Some? then note.value else ""
  }

  // ----- Folding -----

  lemma {:induction false} FoldedAlike(a: string, b: string)
    ensures Lower(a) == Lower(b) <==> SameLetters(a, b)
  {
    if Lower(a) == Lower(b) {
      assert |a| == |Lower(a)| == |b|;
      forall i | 0 <= i < |a| ensures SameLetter(a[i], b[i]) {
        assert Lower(a)[i] == LowerChar(a[i]) && Lower(b)[i] == LowerChar(b[i]);
      }
    }
  }

  // ----- Splitting -----

  lemma {:induction false} SplitBehindBlanks(gap: string, rest: string)
    requires AllBlank(gap)
    ensures Words(gap + rest) == Words(rest)
  {
    if gap == "" {
      assert gap + rest == rest;
    } else {
      assert (gap + rest)[1..] == gap[1..] + rest;
      SplitBehindBlanks(gap[1..], rest);
    }
  }

  lemma {:induction false} WordEndsAtBlank(word: string, rest: string)
    requires forall i :: 0 <= i < |word| ==> !Blank(word[i])
    requires rest == "" || Blank(rest[0])
    ensures WordLength(word + rest) == |word|
  {
    if word == "" {
      assert word + rest == rest;
    } else {
      assert (word + rest)[1..] == word[1..] + rest;
      WordEndsAtBlank(word[1..], rest);
    }
  }

  lemma {:induction false} SplitOneWord(word: string, rest: string)
    requires IsWord(word) && (rest == "" || Blank(rest[0]))
    ensures Words(word + rest) == [word] + Words(rest)
  {
    var s := word + rest;
    assert s[0] == word[0] && !IsSpace(s[0]);
    WordEndsAtBlank(word, rest);
    assert s[..|word|] == word && s[|word|..] == rest;
  }

  /** However a text is laid out, splitting it gives back its words. */
  lemma {:induction false} SplitsIntoItsWords(text: string, words: seq<string>, gaps: seq<string>)
    requires Written(text, words, gaps)
    ensures Words(text) == words
    decreases |words|
  {
    if words == [] {
      assert gaps[0] + "" == gaps[0];
      SplitBehindBlanks(gaps[0], "");
    } else {
      var rest := Laid(gaps[1..], words[1..]);
      WrittenRest(text, words, gaps);
      SplitsIntoItsWords(rest, words[1..], gaps[1..]);
      assert text == gaps[0] + (words[0] + rest);
      SplitBehindBlanks(gaps[0], words[0] + rest);
      if rest != "" {
        if |words| == 1 {
          assert rest == gaps[1] && AllBlank(gaps[1]);
        } else {
          assert gaps[1..][0] == gaps[1] && gaps[1] != "" && AllBlank(gaps[1]) && rest[0] == gaps[1][0];
        }
      }
      SplitOneWord(words[0], rest);
    }
  }

  lemma {:induction false} WrittenRest(text: string, words: seq<string>, gaps: seq<string>)
    requires Written(text, words, gaps) && words != []
    ensures Written(Laid(gaps[1..], words[1..]), words[1..], gaps[1..])
  {
    forall i | 0 < i < |words[1..]| ensures gaps[1..][i] != "" {
      assert gaps[1..][i] == gaps[i + 1];
    }
  }

  /** Every text has a layout: its words and the blanks that were dropped. */
  lemma {:induction false} LaidOut(text: string) returns (gaps: seq<string>)
    ensures Written(text, Words(text), gaps)
    ensures text != "" && !Blank(text[0]) ==> gaps[0] == ""
    ensures text != "" && Blank(text[0]) ==> gaps[0] != ""
    decreases |text|
  {
    if text == "" {
      gaps := [""];
    } else if IsSpace(text[0]) {
      var rest := LaidOut(text[1..]);
      gaps := [[text[0]] + rest[0]] + rest[1..];
      WidenedGap(text, Words(text), rest);
    } else {
      var n := WordLength(text);
      WordIsWord(text);
      var rest := LaidOut(text[n..]);
      gaps := [""] + rest;
      PrefixedWord(text, text[..n], Words(text[n..]), rest);
    }
  }

  lemma {:induction false} WidenedGap(text: string, words: seq<string>, rest: seq<string>)
    requires text != "" && Blank(text[0]) && Written(text[1..], words, rest)
    ensures Written(text, words, [[text[0]] + rest[0]] + rest[1..])
  {
    var gaps := [[text[0]] + rest[0]] + rest[1..];
    assert gaps[1..] == rest[1..];
    assert text == [text[0]] + text[1..];
    if words != [] {
      var more := words[0] + Laid(rest[1..], words[1..]);
      assert Laid(gaps, words) == gaps[0] + words[0] + Laid(gaps[1..], words[1..]);
      assert Laid(rest, words) == rest[0] + words[0] + Laid(rest[1..], words[1..]);
      assert [text[0]] + (rest[0] + more) == ([text[0]] + rest[0]) + more;
      assert gaps[0] + words[0] + Laid(gaps[1..], words[1..]) == gaps[0] + more;
      assert rest[0] + words[0] + Laid(rest[1..], words[1..]) == rest[0] + more;
    }
  }

  lemma {:induction false} WordIsWord(text: string)
    requires text != "" && !Blank(text[0])
    ensures var n := WordLength(text);
            && IsWord(text[..n])
            && (n < |text| ==> Blank(text[n]))
    decreases |text|
  {
    var n := WordLength(text);
    assert n == 1 + WordLength(text[1..]);
    if |text| > 1 && !Blank(text[1]) {
      assert text[1..][0] == text[1];
      WordIsWord(text[1..]);
      var m := WordLength(text[1..]);
      assert text[..n] == [text[0]] + text[1..][..m];
      assert n < |text| ==> text[n] == text[1..][m];
    } else {
      assert n == 1;
    }
  }

  lemma {:induction false} PrefixedWord(text: string, word: string, words: seq<string>, rest: seq<string>)
    requires IsWord(word) && word <= text && Written(text[|word|..], words, rest)
    requires words != [] ==> rest[0] != ""
    ensures Written(text, [word] + words, [""] + rest)
  {
    var gaps, all := [""] + rest, [word] + words;
    assert gaps[1..] == rest && all[1..] == words;
    assert text == word + text[|word|..];
    assert "" + word + Laid(rest, words) == text;
  }

  // ----- Joining with one blank -----

  lemma {:induction false} JoinedFirst(words: seq<string>)
    requires |words| > 1 && IsWord(words[0])
    ensures var all := JoinWords(words);
            && |all| > |words[0]| && all[|words[0]|] == ' '
            && all[..|words[0]|] == words[0] && all[|words[0]| + 1..] == JoinWords(words[1..])
  {
    assert JoinWords(words) == words[0] + (" " + JoinWords(words[1..]));
  }

  predicate AreWords(words: seq<string>) {
    forall i :: 0 <= i < |words| ==> IsWord(words[i])
  }

  lemma {:induction false} JoinedHasWord(words: seq<string>)
    requires words != [] && AreWords(words)
    ensures var all := JoinWords(words);
            && |all| >= |words[0]| && all[..|words[0]|] == words[0]
            && (|all| > |words[0]| <==> |words| > 1)
            && (|all| > |words[0]| ==> Blank(all[|words[0]|]))
            && (forall i :: 0 <= i < |words[0]| ==> !Blank(all[i]))
  {
    if |words| > 1 {
      JoinedFirst(words);
    } else {
      assert words == [words[0]];
    }
  }

  /** Joined texts that agree up to case come from the same words up to case. */
  lemma {:induction false} JoinedAlike(ws: seq<string>, vs: seq<string>)
    requires AreWords(ws) && AreWords(vs) && SameLetters(JoinWords(ws), JoinWords(vs))
    ensures SameWords(ws, vs)
    decreases |ws|
  {
    if ws == [] {
      if vs != [] {
        JoinedHasWord(vs);
        assert false;
      }
    } else if vs == [] {
      JoinedHasWord(ws);
      assert false;
    } else {
      FirstWordsAlike(ws, vs);
      if |ws| > 1 {
        JoinedFirst(ws);
        JoinedFirst(vs);
        var n := |ws[0]|;
        var a, b := JoinWords(ws), JoinWords(vs);
        assert SameLetters(a[n + 1..], b[n + 1..]);
        JoinedAlike(ws[1..], vs[1..]);
        forall i | 0 <= i < |ws| ensures SameLetters(ws[i], vs[i]) {
          if i > 0 {
            assert ws[i] == ws[1..][i - 1] && vs[i] == vs[1..][i - 1];
          }
        }
      }
    }
  }

  lemma {:induction false} FirstWordsAlike(ws: seq<string>, vs: seq<string>)
    requires AreWords(ws) && AreWords(vs) && ws != [] && vs != []
    requires SameLetters(JoinWords(ws), JoinWords(vs))
    ensures SameLetters(ws[0], vs[0]) && (|ws| > 1 <==> |vs| > 1)
  {
    var a, b := JoinWords(ws), JoinWords(vs);
    JoinedHasWord(ws);
    JoinedHasWord(vs);
    var n, m := |ws[0]|, |vs[0]|;
    assert m < |a| ==> SameLetter(a[m], b[m]);
    assert n < |b| ==> SameLetter(a[n], b[n]);
    assert n == m;
    forall i | 0 <= i < n ensures SameLetter(ws[0][i], vs[0][i]) {
      assert ws[0][i] == a[..n][i] && vs[0][i] == b[..n][i];
    }
  }

  /** The same words up to case join to texts that agree up to case. */
  lemma {:induction false} AlikeJoined(ws: seq<string>, vs: seq<string>)
    requires SameWords(ws, vs)
    ensures SameLetters(JoinWords(ws), JoinWords(vs))
  {
    if |ws| > 1 {
      assert SameLetters(ws[0], vs[0]);
      forall i | 0 <= i < |ws[1..]| ensures SameLetters(ws[1..][i], vs[1..][i]) {
        assert ws[1..][i] == ws[i + 1] && vs[1..][i] == vs[i + 1];
      }
      AlikeJoined(ws[1..], vs[1..]);
    }
  }

  // ----- What counts as the same -----

  lemma {:induction false} SplitIntoWords(text: string)
    ensures AreWords(Words(text))
  {
    var gaps := LaidOut(text);
  }

  /** Two notes are the same for the judge exactly when they consist of the same
      words in the same order, up to case, whatever blanks stand around them. */
  lemma {:induction false} SameTextIff(a: Option<string>, b: Option<string>)
    ensures SameText(a, b) <==> ReadsTheSame(TextOf(a), TextOf(b))
  {
    var s, t := TextOf(a), TextOf(b);
    var gaps := LaidOut(s);
    var holes := LaidOut(t);
    FoldedAlike(JoinWords(Words(s)), JoinWords(Words(t)));
    if SameText(a, b) {
      SplitIntoWords(s);
      SplitIntoWords(t);
      JoinedAlike(Words(s), Words(t));
    }
    if ReadsTheSame(s, t) {
      var ws, vs, g, h :| Written(s, ws, g) && Written(t, vs, h) && SameWords(ws, vs);
      SplitsIntoItsWords(s, ws, g);
      SplitsIntoItsWords(t, vs, h);
      AlikeJoined(ws, vs);
    }
  }

  /** Main result: what an expected position and a booked one must have in common. */
  lemma {:induction false} MatchesIff(want: Want, got: Got)
    ensures Matches(want, got) <==>
            && SameLetters(want.number, got.number)
            && want.quantity == got.quantity
            && (want.options.Some? ==> multiset(want.options.value) == multiset(got.options))
            && (want.note.Some? ==> ReadsTheSame(TextOf(want.note.value), TextOf(got.note)))
  {
    FoldedAlike(want.number, got.number);
    if want.note.Some? {
      SameTextIff(want.note.value, got.note);
    }
  }

  // ----- Changes that make no difference -----

  /** The case of one letter in a number, on either side. */
  lemma {:induction false} CaseOfANumber(want: Want, got: Got, k: nat, c: char)
    ensures k < |want.number| && SameLetter(want.number[k], c)
            ==> (Matches(want.(number := want.number[k := c]), got) <==> Matches(want, got))
    ensures k < |got.number| && SameLetter(got.number[k], c)
            ==> (Matches(want, got.(number := got.number[k := c])) <==> Matches(want, got))
  {
    if k < |want.number| && SameLetter(want.number[k], c) {
      FoldedAlike(want.number, want.number[k := c]);
    }
    if k < |got.number| && SameLetter(got.number[k], c) {
      FoldedAlike(got.number, got.number[k := c]);
    }
  }

  /** A change in a note that the judge does not see: the case of one letter, or a
      blank put in front, behind, or beside another blank. */
  predicate Unseen(a: string, b: string, k: nat, c: char) {
    || (k < |a| && SameLetter(a[k], c) && b == a[k := c])
    || (k <= |a| && Blank(c) && (k == 0 || k == |a| || Blank(a[k - 1]) || Blank(a[k])) && b == a[..k] + [c] + a[k..])
  }

  lemma {:induction false} UnseenReadsTheSame(a: string, b: string, k: nat, c: char)
    requires Unseen(a, b, k, c)
    ensures SameText(Some(a), Some(b))
  {
    if k < |a| && SameLetter(a[k], c) && b == a[k := c] {
      RecasedWords(a, b);
      AlikeJoined(Words(a), Words(b));
      FoldedAlike(JoinWords(Words(a)), JoinWords(Words(b)));
    } else {
      BlankAdded(a[..k], c, a[k..]);
      assert a == a[..k] + a[k..] && b == a[..k] + [c] + a[k..];
    }
  }

  /** Texts that agree up to case split into words that agree up to case. */
  lemma {:induction false} RecasedWords(a: string, b: string)
    requires SameLetters(a, b)
    ensures SameWords(Words(a), Words(b))
    decreases |a|
  {
    if a != "" {
      assert SameLetter(a[0], b[0]);
      if IsSpace(a[0]) {
        assert SameLetters(a[1..], b[1..]);
        RecasedWords(a[1..], b[1..]);
      } else {
        RecasedLength(a, b);
        var n := WordLength(a);
        assert SameLetters(a[..n], b[..n]) && SameLetters(a[n..], b[n..]);
        RecasedWords(a[n..], b[n..]);
      }
    }
  }

  lemma {:induction false} RecasedLength(a: string, b: string)
    requires SameLetters(a, b)
    ensures WordLength(a) == WordLength(b)
  {
    if a != "" {
      assert SameLetter(a[0], b[0]);
      assert SameLetters(a[1..], b[1..]);
      RecasedLength(a[1..], b[1..]);
    }
  }

  lemma {:induction false} BlankAdded(front: string, c: char, back: string)
    requires Blank(c)
    requires front == "" || back == "" || Blank(front[|front| - 1]) || Blank(back[0])
    ensures Words(front + [c] + back) == Words(front + back)
    decreases |front|
  {
    hide Words, WordLength;
    if front == "" {
      assert "" + [c] + back == [c] + back && "" + back == back;
      SplitBehindBlanks([c], back);
    } else if Blank(front[0]) {
      BlankAdded(front[1..], c, back);
      BlankBehindBlank(front[0], front[1..], c, back);
      assert front == [front[0]] + front[1..];
    } else {
      WordIsWord(front);
      var n := WordLength(front);
      BlankAdded(front[n..], c, back);
      BlankBehindWord(front[..n], front[n..], c, back);
      assert front == front[..n] + front[n..];
    }
  }

  lemma {:induction false} BlankBehindBlank(b: char, rest: string, c: char, back: string)
    requires Blank(b) && Words(rest + [c] + back) == Words(rest + back)
    ensures Words([b] + rest + [c] + back) == Words([b] + rest + back)
  {
    hide Words;
    assert [b] + rest + [c] + back == [b] + (rest + [c] + back) && [b] + rest + back == [b] + (rest + back);
    SplitBehindBlanks([b], rest + [c] + back);
    SplitBehindBlanks([b], rest + back);
  }

  lemma {:induction false} BlankBehindWord(word: string, rest: string, c: char, back: string)
    requires IsWord(word) && Blank(c)
    requires if rest != "" then Blank(rest[0]) else back == "" || Blank(back[0])
    requires Words(rest + [c] + back) == Words(rest + back)
    ensures Words(word + rest + [c] + back) == Words(word + rest + back)
  {
    assert word + rest + [c] + back == word + (rest + [c] + back) && word + rest + back == word + (rest + back);
    SplitOneWord(word, rest + [c] + back);
    SplitOneWord(word, rest + back);
  }

  /** Nothing unseen in a note changes what matches, on either side. */
  lemma {:induction false} UnseenInANote(want: Want, got: Got, b: string, k: nat, c: char)
    ensures want.note.Some? && want.note.value.Some? && Unseen(want.note.value.value, b, k, c)
            ==> (Matches(want.(note := Some(Some(b))), got) <==> Matches(want, got))
    ensures got.note.Some? && Unseen(got.note.value, b, k, c)
            ==> (Matches(want, got.(note := Some(b))) <==> Matches(want, got))
  {
    if want.note.Some? && want.note.value.Some? && Unseen(want.note.value.value, b, k, c) {
      UnseenReadsTheSame(want.note.value.value, b, k, c);
    }
    if got.note.Some? && Unseen(got.note.value, b, k, c) {
      UnseenReadsTheSame(got.note.value, b, k, c);
    }
  }
}
