/**
 Which words findWordRange (src/components/TranscriptRows.tsx) can miss. Its scan restarts at a
 mismatch instead of falling back, so it finds every appearance of some words and not of others.
 */
module WordMatching {
  import opened Wrappers
  import opened TranscriptTiling

  /** Somewhere from the cursor on, a stretch of the text stands for the token. */
  ghost predicate Appears(a: Alphabet, text: string, token: string, cursor: nat) {
    exists i, j :: cursor <= i <= j <= |text| && StandsFor(a, text[i..j], token)
  }

  /** A letter that breaks off the word leaves nothing of it but perhaps a first letter. */
  ghost predicate Restartable(letters: string) {
    forall m, b :: 1 <= b < m < |letters| && letters[..b] == letters[m - b..m] ==> letters[b] == letters[m]
  }

  // ---------------------------------------------------------------------------------------
  // Words that are always found
  // ---------------------------------------------------------------------------------------

  ghost predicate EndsWith(read: string, part: string) {
    |part| <= |read| && read[|read| - |part|..] == part
  }

  /** The scan holds the longest start of the word that the letters read so far end with. */
  ghost predicate Longest(letters: string, read: string, matched: nat) {
    && matched < |letters|
    && EndsWith(read, letters[..matched])
    && (forall k :: matched < k <= |letters| ==> !EndsWith(read, letters[..k]))
  }

  lemma ShorterEnd(letters: string, read: string, c: char, k: nat)
    requires 1 <= k <= |letters| && EndsWith(read + [c], letters[..k])
    ensures letters[k - 1] == c && EndsWith(read, letters[..k - 1])
  {
    var longer := read + [c];
    assert longer[|longer| - 1] == letters[..k][k - 1];
    assert read[|read| - (k - 1)..] == longer[|longer| - k..][..k - 1] == letters[..k][..k - 1] == letters[..k - 1];
  }

  lemma MatchExtends(letters: string, read: string, c: char, matched: nat)
    requires Longest(letters, read, matched) && c == letters[matched] && matched + 1 < |letters|
    ensures Longest(letters, read + [c], matched + 1)
  {
    assert letters[..matched + 1] == letters[..matched] + [c];
    assert (read + [c])[|read| + 1 - (matched + 1)..] == read[|read| - matched..] + [c];
    forall k | matched + 1 < k <= |letters| ensures !EndsWith(read + [c], letters[..k]) {
      if EndsWith(read + [c], letters[..k]) {
        ShorterEnd(letters, read, c, k);
      }
    }
  }

  /** Two ends of the same text: the shorter is an end of the longer. */
  lemma EndsNest(letters: string, read: string, b: nat, m: nat)
    requires b <= m <= |letters| && EndsWith(read, letters[..b]) && EndsWith(read, letters[..m])
    ensures letters[..b] == letters[m - b..m]
  {
    assert read[|read| - b..] == read[|read| - m..][m - b..] == letters[..m][m - b..] == letters[m - b..m];
  }

  /** After a mismatch no more than a first letter can be left. */
  lemma MismatchRestarts(letters: string, read: string, c: char, matched: nat)
    requires Restartable(letters) && Longest(letters, read, matched) && c != letters[matched]
    ensures Longest(letters, read + [c], if c == letters[0] && |letters| > 1 then 1 else 0)
  {
    forall k | 2 <= k <= |letters| ensures !EndsWith(read + [c], letters[..k]) {
      if EndsWith(read + [c], letters[..k]) {
        ShorterEnd(letters, read, c, k);
        assert k - 1 < matched;
        EndsNest(letters, read, k - 1, matched);
      }
    }
    if EndsWith(read + [c], letters[..1]) {
      ShorterEnd(letters, read, c, 1);
    }
    assert c == letters[0] ==> (read + [c])[|read|..] == letters[..1];
  }

  lemma ReadingALetter(a: Alphabet, text: string, letters: string, cursor: nat, index: nat, matched: nat)
    requires cursor <= index < |text| && Restartable(letters) && a.isLetter(a.fold(text[index]))
    requires Longest(letters, Letters(a, text[cursor..index]), matched)
    ensures var c, after := a.fold(text[index]), Letters(a, text[cursor..index + 1]);
            if c != letters[matched] then Longest(letters, after, if c == letters[0] && |letters| > 1 then 1 else 0)
            else matched + 1 < |letters| ==> Longest(letters, after, matched + 1)
  {
    var c, read := a.fold(text[index]), Letters(a, text[cursor..index]);
    LettersOneMore(a, text, cursor, index);
    if c != letters[matched] {
      MismatchRestarts(letters, read, c, matched);
    } else if matched + 1 < |letters| {
      MatchExtends(letters, read, c, matched);
    }
  }

  lemma ReadingAnotherCharacter(a: Alphabet, text: string, cursor: nat, index: nat)
    requires cursor <= index < |text| && !a.isLetter(a.fold(text[index]))
    ensures Letters(a, text[cursor..index + 1]) == Letters(a, text[cursor..index])
  {
    LettersOneMore(a, text, cursor, index);
  }

  lemma LongestIsNotTheWord(letters: string, read: string, matched: nat)
    requires Longest(letters, read, matched)
    ensures !EndsWith(read, letters)
  {
    assert letters[..|letters|] == letters;
  }

  /** If the scan finds nothing, the letters read never end with the word. */
  lemma {:induction false} ScanIsComplete(a: Alphabet, text: string, letters: string, cursor: nat, index: nat, matched: nat,
                                          start: nat, j: nat)
    requires cursor <= index <= j <= |text| && Restartable(letters)
    requires Longest(letters, Letters(a, text[cursor..index]), matched)
    requires Scan(a, text, letters, index, matched, start).None?
    ensures !EndsWith(Letters(a, text[cursor..j]), letters)
    decreases |text| - index
  {
    if index == j {
      LongestIsNotTheWord(letters, Letters(a, text[cursor..index]), matched);
    } else {
      var c := a.fold(text[index]);
      if !a.isLetter(c) {
        ReadingAnotherCharacter(a, text, cursor, index);
        ScanIsComplete(a, text, letters, cursor, index + 1, matched, start, j);
      } else {
        ReadingALetter(a, text, letters, cursor, index, matched);
        if c == letters[matched] {
          ScanIsComplete(a, text, letters, cursor, index + 1, matched + 1, if matched == 0 then index else start, j);
        } else if c == letters[0] && |letters| > 1 {
          ScanIsComplete(a, text, letters, cursor, index + 1, 1, index, j);
        } else {
          ScanIsComplete(a, text, letters, cursor, index + 1, 0, 0, j);
        }
      }
    }
  }

  lemma {:induction false} LettersJoin(a: Alphabet, s: string, t: string)
    ensures Letters(a, s + t) == Letters(a, s) + Letters(a, t)
  {
    if t == "" {
      assert s + t == s;
    } else {
      assert (s + t)[..|s + t| - 1] == s + t[..|t| - 1];
      LettersJoin(a, s, t[..|t| - 1]);
    }
  }

  lemma LettersEnd(a: Alphabet, text: string, cursor: nat, i: nat, j: nat)
    requires cursor <= i <= j <= |text|
    ensures EndsWith(Letters(a, text[cursor..j]), Letters(a, text[i..j]))
  {
    assert text[cursor..j] == text[cursor..i] + text[i..j];
    LettersJoin(a, text[cursor..i], text[i..j]);
  }

  lemma NothingReadYet(letters: string)
    requires letters != ""
    ensures Longest(letters, "", 0)
  {
  }

  /** A word that restarts well is found wherever it appears, and only there. */
  lemma RestartableWordIsFound(a: Alphabet, text: string, token: string, cursor: nat)
    requires cursor <= |text| && Letters(a, token) != "" && Restartable(Letters(a, token))
    ensures WordRange(a, text, token, cursor).Some? <==> Appears(a, text, token, cursor)
  {
    var letters := Letters(a, token);
    WordRangeIsSound(a, text, token, cursor);
    if Appears(a, text, token, cursor) && WordRange(a, text, token, cursor).None? {
      var i, j :| cursor <= i <= j <= |text| && StandsFor(a, text[i..j], token);
      if Lower(a, text[i..j]) == Lower(a, token) {
        assert |text[i..j]| == |Lower(a, text[i..j])|;
        LiteralWordIsFound(a, text, token, cursor, i);
      } else {
        NothingReadYet(letters);
        assert text[cursor..cursor] == "";
        ScanIsComplete(a, text, letters, cursor, cursor, 0, 0, j);
        LettersEnd(a, text, cursor, i, j);
      }
    }
  }

  // ---------------------------------------------------------------------------------------
  // Words that can be missed
  // ---------------------------------------------------------------------------------------

  predicate AllLetters(a: Alphabet, s: string) {
    forall c :: c in s ==> a.isLetter(a.fold(c))
  }

  lemma {:induction false} LettersOfLetters(a: Alphabet, s: string)
    requires AllLetters(a, s)
    ensures Letters(a, s) == Lower(a, s)
  {
    if s != "" {
      LettersOfLetters(a, s[..|s| - 1]);
      assert s[|s| - 1] in s;
      assert Lower(a, s) == Lower(a, s[..|s| - 1]) + [a.fold(s[|s| - 1])];
    }
  }

  /** A start of the word, a separator, and the end of the word from a repeated start on. */
  function Stutter(token: string, separator: char, m: nat, b: nat): string
    requires b <= m <= |token|
  {
    token[..m] + [separator] + token[b..]
  }

  lemma {:induction false} ScanReadsTheStart(a: Alphabet, text: string, letters: string, m: nat, k: nat)
    requires k <= m < |letters| && m <= |text|
    requires forall i :: 0 <= i < m ==> a.isLetter(a.fold(text[i])) && a.fold(text[i]) == letters[i]
    ensures Scan(a, text, letters, 0, 0, 0) == Scan(a, text, letters, k, k, 0)
  {
    if k > 0 {
      ScanReadsTheStart(a, text, letters, m, k - 1);
    }
  }

  lemma {:induction false} TooFewLettersLeft(a: Alphabet, text: string, letters: string, index: nat, matched: nat, start: nat)
    requires index <= |text| && matched < |letters| && |text| - index < |letters| - matched
    ensures Scan(a, text, letters, index, matched, start).None?
    decreases |text| - index
  {
    if index < |text| {
      var c := a.fold(text[index]);
      if !a.isLetter(c) {
        TooFewLettersLeft(a, text, letters, index + 1, matched, start);
      } else if c == letters[matched] {
        TooFewLettersLeft(a, text, letters, index + 1, matched + 1, if matched == 0 then index else start);
      } else if c == letters[0] && |letters| > 1 {
        TooFewLettersLeft(a, text, letters, index + 1, 1, index);
      } else {
        TooFewLettersLeft(a, text, letters, index + 1, 0, 0);
      }
    }
  }

  /** The separator is no part of a word of letters, and no stretch without it is long enough. */
  lemma StutterHasNoLiteral(a: Alphabet, token: string, separator: char, m: nat, b: nat, i: nat)
    requires AllLetters(a, token) && !a.isLetter(a.fold(separator)) && 1 <= b <= m < |token|
    ensures !OccursAt(Lower(a, Stutter(token, separator, m, b)), Lower(a, token), i)
  {
    var lower, word := Lower(a, Stutter(token, separator, m, b)), Lower(a, token);
    if i + |word| <= |lower| {
      assert token[m - i] in token;
      assert lower[i..i + |word|][m - i] == lower[m] != word[m - i];
    }
  }

  lemma LettersSkipSeparator(a: Alphabet, start: string, separator: char, rest: string)
    requires AllLetters(a, start) && AllLetters(a, rest) && !a.isLetter(a.fold(separator))
    ensures Letters(a, start + ([separator] + rest)) == Lower(a, start + rest)
  {
    LettersJoin(a, start, [separator] + rest);
    LettersJoin(a, [separator], rest);
    assert [separator][..0] == "";
    LettersOfLetters(a, start);
    LettersOfLetters(a, rest);
    assert Lower(a, start) + ("" + Lower(a, rest)) == Lower(a, start + rest);
  }

  lemma StutterAppears(a: Alphabet, token: string, separator: char, m: nat, b: nat)
    requires AllLetters(a, token) && !a.isLetter(a.fold(separator)) && 1 <= b < m < |token|
    requires Lower(a, token)[..b] == Lower(a, token)[m - b..m]
    ensures Appears(a, Stutter(token, separator, m, b), token, 0)
  {
    var text, i := Stutter(token, separator, m, b), m - b;
    var start, rest := token[m - b..m], token[b..];
    assert Letters(a, text[i..|text|]) == Lower(a, start + rest) by {
      assert text[i..|text|] == start + ([separator] + rest);
      LettersSkipSeparator(a, start, separator, rest);
    }
    assert Lower(a, start + rest) == Lower(a, token) by {
      var word := Lower(a, token);
      assert Lower(a, start + rest) == word[m - b..m] + word[b..] == word[..b] + word[b..];
    }
    LettersOfLetters(a, token);
    assert StandsFor(a, text[i..|text|], token);
  }

  lemma StutterIsMissed(a: Alphabet, token: string, separator: char, m: nat, b: nat)
    requires AllLetters(a, token) && !a.isLetter(a.fold(separator)) && 1 <= b < m < |token|
    requires Lower(a, token)[b] != Lower(a, token)[m]
    ensures WordRange(a, Stutter(token, separator, m, b), token, 0).None?
  {
    var text, word := Stutter(token, separator, m, b), Lower(a, token);
    forall i ensures !OccursAt(Lower(a, text), word, i) {
      StutterHasNoLiteral(a, token, separator, m, b, i);
    }
    LettersOfLetters(a, token);
    forall i | 0 <= i < m ensures a.isLetter(a.fold(text[i])) && a.fold(text[i]) == word[i] {
      assert text[i] == token[i] && token[i] in token;
    }
    ScanReadsTheStart(a, text, word, m, m);
    assert text[m] == separator && text[m + 1] == token[b] && token[b] in token;
    assert a.fold(text[m + 1]) == word[b];
    var restarted := if word[b] == word[0] then 1 else 0;
    assert Scan(a, text, word, m, m, 0) == Scan(a, text, word, m + 1, m, 0)
        == Scan(a, text, word, m + 2, restarted, if restarted == 1 then m + 1 else 0);
    TooFewLettersLeft(a, text, word, m + 2, restarted, if restarted == 1 then m + 1 else 0);
  }

  /** Found in every text it appears in. */
  ghost predicate AlwaysFound(a: Alphabet, token: string) {
    forall text, cursor: nat :: cursor <= |text| && Appears(a, text, token, cursor) ==> WordRange(a, text, token, cursor).Some?
  }

  /**
   A word of letters is found wherever it appears precisely if, whenever a start of it repeats
   earlier letters of it, the same letter follows both.
   */
  lemma WordsAreFoundExactlyWhen(a: Alphabet, token: string, separator: char)
    requires token != "" && AllLetters(a, token) && !a.isLetter(a.fold(separator))
    ensures AlwaysFound(a, token) <==> Restartable(Letters(a, token))
  {
    LettersOfLetters(a, token);
    var letters := Letters(a, token);
    if Restartable(letters) {
      forall text, cursor: nat | cursor <= |text| && Appears(a, text, token, cursor)
        ensures WordRange(a, text, token, cursor).Some?
      {
        RestartableWordIsFound(a, text, token, cursor);
      }
    } else {
      var m, b :| 1 <= b < m < |letters| && letters[..b] == letters[m - b..m] && letters[b] != letters[m];
      StutterAppears(a, token, separator, m, b);
      StutterIsMissed(a, token, separator, m, b);
    }
  }

  /** The word aab appears in aa-ab and is not found there. */
  lemma AWordCanBeMissed(a: Alphabet)
    requires a.fold('a') == 'a' && a.fold('b') == 'b' && a.fold('-') == '-'
    requires a.isLetter('a') && a.isLetter('b') && !a.isLetter('-')
    ensures Appears(a, "aa-ab", "aab", 0) && WordRange(a, "aa-ab", "aab", 0).None?
  {
    assert Stutter("aab", '-', 2, 1) == "aa-ab";
    assert Lower(a, "aab") == "aab" && "aab"[..1] == "aab"[1..2];
    StutterAppears(a, "aab", '-', 2, 1);
    StutterIsMissed(a, "aab", '-', 2, 1);
  }
}
