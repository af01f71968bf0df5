/**
 Showing a turn word by word (src/components/TranscriptRows.tsx: findWordRange, the part loop of
 TimedTranscriptText, HighlightedSlice). `fold` lower-cases a character without changing the
 length of a text; `isLetter` holds of letters and digits.
 */
module TranscriptTiling {
  import opened Wrappers

  type Fold = char -> char
  type Letter = char -> bool

  datatype Alphabet = Alphabet(fold: Fold, isLetter: Letter)

  function Lower(a: Alphabet, s: string): string {
    seq(|s|, i requires 0 <= i < |s| => a.fold(s[i]))
  }

  /** The letters and digits of a text, lower-cased. */
  function Letters(a: Alphabet, s: string): string {
    if s == "" then ""
    else
      var last := a.fold(s[|s| - 1]);
      Letters(a, s[..|s| - 1]) + if a.isLetter(last) then [last] else ""
  }

  predicate OccursAt(text: string, pattern: string, i: nat) {
    i + |pattern| <= |text| && text[i..i + |pattern|] == pattern
  }

  /** The first occurrence at or after `from`. */
  function IndexOf(text: string, pattern: string, from: nat): (r: Option<nat>)
    ensures r.Some? ==> from <= r.value && OccursAt(text, pattern, r.value)
    ensures r.Some? ==> forall i :: from <= i < r.value ==> !OccursAt(text, pattern, i)
    ensures r.None? ==> forall i :: from <= i ==> !OccursAt(text, pattern, i)
    decreases |text| + 1 - from
  {
    if from + |pattern| > |text| then None
    else if OccursAt(text, pattern, from) then Some(from)
    else IndexOf(text, pattern, from + 1)
  }

  // ---------------------------------------------------------------------------------------
  // Finding a word
  // ---------------------------------------------------------------------------------------

  datatype Range = Range(start: nat, end: nat)

  /** The scan that ignores everything but letters; after a mismatch it restarts at the mismatch. */
  function Scan(a: Alphabet, text: string, letters: string, index: nat, matched: nat, start: nat): Option<Range>
    requires index <= |text| && matched < |letters|
    decreases |text| - index
  {
    if index == |text| then None
    else
      var c := a.fold(text[index]);
      if !a.isLetter(c) then Scan(a, text, letters, index + 1, matched, start)
      else if c == letters[matched] then
        var first := if matched == 0 then index else start;
        if matched + 1 == |letters| then Some(Range(first, index + 1))
        else Scan(a, text, letters, index + 1, matched + 1, first)
      else if c == letters[0] && |letters| > 1 then Scan(a, text, letters, index + 1, 1, index)
      else Scan(a, text, letters, index + 1, 0, 0)
  }

  function WordRange(a: Alphabet, text: string, token: string, cursor: nat): Option<Range>
    requires cursor <= |text|
  {
    var exact := IndexOf(Lower(a, text), Lower(a, token), cursor);
    if exact.Some? then Some(Range(exact.value, exact.value + |token|))
    else if Letters(a, token) == "" then None
    else Scan(a, text, Letters(a, token), cursor, 0, 0)
  }

  /** The stretch of text stands for the token: the same text, or at least the same letters. */
  ghost predicate StandsFor(a: Alphabet, stretch: string, token: string) {
    Lower(a, stretch) == Lower(a, token) || Letters(a, stretch) == Letters(a, token)
  }

  lemma LettersOneMore(a: Alphabet, text: string, low: nat, index: nat)
    requires low <= index < |text|
    ensures var c := a.fold(text[index]);
            Letters(a, text[low..index + 1]) == Letters(a, text[low..index]) + if a.isLetter(c) then [c] else ""
  {
    assert text[low..index + 1][..index - low] == text[low..index];
  }

  /** The scan's variables: the letters since `start` are the first `matched` letters of the token. */
  ghost predicate Scanning(a: Alphabet, text: string, letters: string, cursor: nat, index: nat, matched: nat, start: nat) {
    && index <= |text| && matched < |letters|
    && (matched > 0 ==> cursor <= start < index && Letters(a, text[start..index]) == letters[..matched])
  }

  lemma ScanningOn(a: Alphabet, text: string, letters: string, cursor: nat, index: nat, matched: nat, start: nat)
    requires cursor <= index < |text| && Scanning(a, text, letters, cursor, index, matched, start)
    ensures var c, first := a.fold(text[index]), if matched == 0 then index else start;
            if !a.isLetter(c) then Scanning(a, text, letters, cursor, index + 1, matched, start)
            else if c == letters[matched] then
              if matched + 1 == |letters| then cursor <= first <= index && Letters(a, text[first..index + 1]) == letters
              else Scanning(a, text, letters, cursor, index + 1, matched + 1, first)
            else c == letters[0] && |letters| > 1 ==> Scanning(a, text, letters, cursor, index + 1, 1, index)
  {
    var c := a.fold(text[index]);
    if matched > 0 {
      LettersOneMore(a, text, start, index);
    }
    LettersOneMore(a, text, index, index);
    assert text[index..index] == "";
    assert letters[..matched + 1] == letters[..matched] + [letters[matched]];
    assert letters[..1] == [letters[0]] && letters[..|letters|] == letters;
  }

  lemma {:induction false} ScanIsSound(a: Alphabet, text: string, letters: string, cursor: nat, index: nat, matched: nat, start: nat)
    requires cursor <= index && Scanning(a, text, letters, cursor, index, matched, start)
    ensures var r := Scan(a, text, letters, index, matched, start);
            r.Some? ==> cursor <= r.value.start < r.value.end <= |text|
                        && Letters(a, text[r.value.start..r.value.end]) == letters
    decreases |text| - index
  {
    if index < |text| {
      var c := a.fold(text[index]);
      ScanningOn(a, text, letters, cursor, index, matched, start);
      if !a.isLetter(c) {
        ScanIsSound(a, text, letters, cursor, index + 1, matched, start);
      } else if c == letters[matched] {
        if matched + 1 < |letters| {
          ScanIsSound(a, text, letters, cursor, index + 1, matched + 1, if matched == 0 then index else start);
        }
      } else if c == letters[0] && |letters| > 1 {
        ScanIsSound(a, text, letters, cursor, index + 1, 1, index);
      } else {
        ScanIsSound(a, text, letters, cursor, index + 1, 0, 0);
      }
    }
  }

  /** A range found lies at or after the cursor and stands for the token. */
  lemma WordRangeIsSound(a: Alphabet, text: string, token: string, cursor: nat)
    requires cursor <= |text| && token != ""
    ensures var r := WordRange(a, text, token, cursor);
            r.Some? ==> cursor <= r.value.start < r.value.end <= |text|
                        && StandsFor(a, text[r.value.start..r.value.end], token)
  {
    var exact := IndexOf(Lower(a, text), Lower(a, token), cursor);
    if exact.Some? {
      var stretch := text[exact.value..exact.value + |token|];
      assert Lower(a, stretch) == Lower(a, text)[exact.value..exact.value + |token|];
    } else if Letters(a, token) != "" {
      ScanIsSound(a, text, Letters(a, token), cursor, cursor, 0, 0);
    }
  }

  /** A token that occurs literally is found where it first occurs. */
  lemma LiteralWordIsFound(a: Alphabet, text: string, token: string, cursor: nat, i: nat)
    requires cursor <= i && i + |token| <= |text| && Lower(a, text[i..i + |token|]) == Lower(a, token)
    ensures var r := WordRange(a, text, token, cursor);
            r.Some? && r.value.start <= i && r.value.end == r.value.start + |token|
            && Lower(a, text[r.value.start..r.value.end]) == Lower(a, token)
  {
    assert Lower(a, text[i..i + |token|]) == Lower(a, text)[i..i + |token|];
    assert OccursAt(Lower(a, text), Lower(a, token), i);
    var start := IndexOf(Lower(a, text), Lower(a, token), cursor).value;
    assert Lower(a, text[start..start + |token|]) == Lower(a, text)[start..start + |token|];
  }

  method FindWordRange(a: Alphabet, text: string, token: string, cursor: nat) returns (r: Option<Range>)
    requires cursor <= |text| && token != ""
    ensures r == WordRange(a, text, token, cursor)
    ensures r.Some? ==> cursor <= r.value.start < r.value.end <= |text|
                        && StandsFor(a, text[r.value.start..r.value.end], token)
  {
    WordRangeIsSound(a, text, token, cursor);
    var exact := IndexOf(Lower(a, text), Lower(a, token), cursor);
    if exact.Some? {
      return Some(Range(exact.value, exact.value + |token|));
    }
    var letters := Letters(a, token);
    if |letters| == 0 {
      return None;
    }
    var matched, start := 0, 0;
    for index := cursor to |text|
      invariant 0 <= matched < |letters| && 0 <= start
      invariant Scan(a, text, letters, index, matched, start) == WordRange(a, text, token, cursor)
    {
      var c := a.fold(text[index]);
      if a.isLetter(c) {
        if c == letters[matched] {
          if matched == 0 { start := index; }
          matched := matched + 1;
          if matched == |letters| {
            return Some(Range(start, index + 1));
          }
        } else {
          matched := if c == letters[0] && |letters| > 1 then 1 else 0;
          start := if matched == 1 then index else 0;
        }
      }
    }
    return None;
  }

  // ---------------------------------------------------------------------------------------
  // Tiling a text
  // ---------------------------------------------------------------------------------------

  /** A stretch of the text from `start`; a word part names its word by position. */
  datatype Part = Part(text: string, start: nat, word: Option<nat>)

  function PartsText(parts: seq<Part>): string {
    if parts == [] then "" else PartsText(parts[..|parts| - 1]) + parts[|parts| - 1].text
  }

  ghost predicate Placed(parts: seq<Part>, i: nat)
    requires i < |parts|
  {
    parts[i].text != "" && parts[i].start == |PartsText(parts[..i])|
  }

  ghost predicate AllPlaced(parts: seq<Part>) {
    forall i :: 0 <= i < |parts| ==> Placed(parts, i)
  }

  /** Each part begins where the text of the parts before it ends. */
  ghost predicate Tiles(parts: seq<Part>, text: string) {
    PartsText(parts) == text && AllPlaced(parts)
  }

  /** Word parts name words in increasing order, and each stands for its word. */
  ghost predicate WordsInOrder(a: Alphabet, parts: seq<Part>, tokens: seq<string>) {
    && (forall i :: 0 <= i < |parts| && parts[i].word.Some? ==>
          parts[i].word.value < |tokens| && StandsFor(a, parts[i].text, tokens[parts[i].word.value]))
    && (forall i, j :: 0 <= i < j < |parts| && parts[i].word.Some? && parts[j].word.Some? ==>
          parts[i].word.value < parts[j].word.value)
  }

  ghost predicate NamesBelow(parts: seq<Part>, bound: nat) {
    forall i :: 0 <= i < |parts| && parts[i].word.Some? ==> parts[i].word.value < bound
  }

  lemma TilesOneMore(parts: seq<Part>, text: string, part: Part)
    requires Tiles(parts, text) && part.text != "" && part.start == |text|
    ensures Tiles(parts + [part], text + part.text)
  {
    var all := parts + [part];
    assert all[..|parts|] == parts;
    forall i | 0 <= i < |all| ensures Placed(all, i) {
      if i < |parts| {
        assert Placed(parts, i) && all[..i] == parts[..i];
      }
    }
  }

  lemma WordsOneMore(a: Alphabet, parts: seq<Part>, tokens: seq<string>, part: Part, bound: nat)
    requires WordsInOrder(a, parts, tokens) && NamesBelow(parts, bound)
    requires part.word.Some? ==> part.word == Some(bound) && bound < |tokens| && StandsFor(a, part.text, tokens[bound])
    ensures WordsInOrder(a, parts + [part], tokens)
    ensures NamesBelow(parts + [part], if part.word.Some? then bound + 1 else bound)
  {
  }

  /** Parts built so far: they tile the text up to the cursor and name words before `bound`. */
  ghost predicate Built(a: Alphabet, parts: seq<Part>, text: string, cursor: nat, tokens: seq<string>, bound: nat)
    requires cursor <= |text|
  {
    Tiles(parts, text[..cursor]) && WordsInOrder(a, parts, tokens) && NamesBelow(parts, bound)
  }

  lemma BuiltOneMore(a: Alphabet, parts: seq<Part>, text: string, cursor: nat, end: nat, tokens: seq<string>, bound: nat,
                     word: Option<nat>)
    requires cursor < end <= |text| && Built(a, parts, text, cursor, tokens, bound)
    requires word.Some? ==> word == Some(bound) && bound < |tokens| && StandsFor(a, text[cursor..end], tokens[bound])
    ensures Built(a, parts + [Part(text[cursor..end], cursor, word)], text, end, tokens,
                  if word.Some? then bound + 1 else bound)
  {
    var part := Part(text[cursor..end], cursor, word);
    TilesOneMore(parts, text[..cursor], part);
    assert text[..cursor] + part.text == text[..end];
    WordsOneMore(a, parts, tokens, part, bound);
  }

  lemma BuiltNamesMore(a: Alphabet, parts: seq<Part>, text: string, cursor: nat, tokens: seq<string>, bound: nat)
    requires cursor <= |text| && Built(a, parts, text, cursor, tokens, bound)
    ensures Built(a, parts, text, cursor, tokens, bound + 1)
  {
  }

  /** Where the last word part before word k ends. */
  function EndOfWordsBefore(parts: seq<Part>, k: nat): nat {
    if parts == [] then 0
    else
      var last := parts[|parts| - 1];
      if last.word.Some? && last.word.value < k then last.start + |last.text|
      else EndOfWordsBefore(parts[..|parts| - 1], k)
  }

  ghost predicate HasPart(parts: seq<Part>, part: Part) {
    part in parts
  }

  /** A word has a part exactly if it is found from the end of the word part before it, and where it is found. */
  ghost predicate ShownWhereFound(a: Alphabet, parts: seq<Part>, text: string, tokens: seq<string>, k: nat)
    requires k < |tokens|
  {
    var from := EndOfWordsBefore(parts, k);
    && from <= |text|
    && var r := WordRange(a, text, tokens[k], from);
       if tokens[k] != "" && r.Some? then
         r.value.start <= r.value.end <= |text|
         && HasPart(parts, Part(text[r.value.start..r.value.end], r.value.start, Some(k)))
       else forall part :: HasPart(parts, part) ==> part.word != Some(k)
  }

  lemma LaterPartKeepsEnd(parts: seq<Part>, part: Part, k: nat)
    requires part.word.Some? ==> k <= part.word.value
    ensures EndOfWordsBefore(parts + [part], k) == EndOfWordsBefore(parts, k)
  {
    assert (parts + [part])[..|parts|] == parts;
  }

  lemma LaterPartKeepsShown(a: Alphabet, parts: seq<Part>, part: Part, text: string, tokens: seq<string>, k: nat)
    requires k < |tokens| && (part.word.Some? ==> k < part.word.value)
    requires ShownWhereFound(a, parts, text, tokens, k)
    ensures ShownWhereFound(a, parts + [part], text, tokens, k)
  {
    LaterPartKeepsEnd(parts, part, k);
    forall p ensures HasPart(parts + [part], p) <==> HasPart(parts, p) || p == part {
    }
  }

  lemma {:induction false} UnnamedWordKeepsEnd(parts: seq<Part>, k: nat)
    requires NamesBelow(parts, k)
    ensures EndOfWordsBefore(parts, k + 1) == EndOfWordsBefore(parts, k)
  {
    if parts != [] {
      UnnamedWordKeepsEnd(parts[..|parts| - 1], k);
    }
  }

  ghost predicate AllShown(a: Alphabet, parts: seq<Part>, text: string, tokens: seq<string>, count: nat)
    requires count <= |tokens|
  {
    forall k :: 0 <= k < count ==> ShownWhereFound(a, parts, text, tokens, k)
  }

  lemma LaterPartKeepsAllShown(a: Alphabet, parts: seq<Part>, part: Part, text: string, tokens: seq<string>, count: nat)
    requires count <= |tokens| && (part.word.Some? ==> count <= part.word.value) && AllShown(a, parts, text, tokens, count)
    ensures AllShown(a, parts + [part], text, tokens, count)
    ensures EndOfWordsBefore(parts + [part], count) == EndOfWordsBefore(parts, count)
  {
    LaterPartKeepsEnd(parts, part, count);
    forall k | 0 <= k < count ensures ShownWhereFound(a, parts + [part], text, tokens, k) {
      LaterPartKeepsShown(a, parts, part, text, tokens, k);
    }
  }

  /** The word just found, from the end of the words before it. */
  lemma FoundWordIsShown(a: Alphabet, parts: seq<Part>, text: string, tokens: seq<string>, k: nat, range: Range)
    requires k < |tokens| && tokens[k] != "" && range.start <= range.end <= |text| && AllShown(a, parts, text, tokens, k)
    requires EndOfWordsBefore(parts, k) <= |text|
    requires WordRange(a, text, tokens[k], EndOfWordsBefore(parts, k)) == Some(range)
    ensures var more := parts + [Part(text[range.start..range.end], range.start, Some(k))];
            AllShown(a, more, text, tokens, k + 1) && EndOfWordsBefore(more, k + 1) == range.end
  {
    var part := Part(text[range.start..range.end], range.start, Some(k));
    var more := parts + [part];
    LaterPartKeepsAllShown(a, parts, part, text, tokens, k);
    assert more[|parts|] == part && HasPart(more, part);
    assert more[..|parts|] == parts;
  }

  lemma MissingWordIsNotShown(a: Alphabet, parts: seq<Part>, text: string, tokens: seq<string>, k: nat)
    requires k < |tokens| && NamesBelow(parts, k) && AllShown(a, parts, text, tokens, k)
    requires EndOfWordsBefore(parts, k) <= |text|
    requires tokens[k] == "" || WordRange(a, text, tokens[k], EndOfWordsBefore(parts, k)).None?
    ensures AllShown(a, parts, text, tokens, k + 1) && EndOfWordsBefore(parts, k + 1) == EndOfWordsBefore(parts, k)
  {
    UnnamedWordKeepsEnd(parts, k);
  }

  /** The part of a word found, after the gap before it. */
  method AddWord(a: Alphabet, parts: seq<Part>, text: string, cursor: nat, tokens: seq<string>, k: nat, range: Range)
    returns (more: seq<Part>)
    requires k < |tokens| && cursor <= range.start < range.end <= |text| && Built(a, parts, text, cursor, tokens, k)
    requires StandsFor(a, text[range.start..range.end], tokens[k])
    requires tokens[k] != "" && AllShown(a, parts, text, tokens, k) && EndOfWordsBefore(parts, k) == cursor
    requires WordRange(a, text, tokens[k], cursor) == Some(range)
    ensures Built(a, more, text, range.end, tokens, k + 1)
    ensures AllShown(a, more, text, tokens, k + 1) && EndOfWordsBefore(more, k + 1) == range.end
  {
    more := parts;
    if range.start > cursor {
      var gap := Part(text[cursor..range.start], cursor, None);
      BuiltOneMore(a, more, text, cursor, range.start, tokens, k, None);
      LaterPartKeepsAllShown(a, more, gap, text, tokens, k);
      more := more + [gap];
    }
    BuiltOneMore(a, more, text, range.start, range.end, tokens, k, Some(k));
    FoundWordIsShown(a, more, text, tokens, k, range);
    more := more + [Part(text[range.start..range.end], range.start, Some(k))];
  }

  /** `tokens` are the texts of the words, trimmed. A word that is not found is not shown apart. */
  method BuildParts(a: Alphabet, text: string, tokens: seq<string>) returns (parts: seq<Part>)
    ensures Tiles(parts, text)
    ensures WordsInOrder(a, parts, tokens)
    ensures AllShown(a, parts, text, tokens, |tokens|)
  {
    parts := [];
    var cursor := 0;
    assert text[..0] == "";
    for k := 0 to |tokens|
      invariant 0 <= cursor <= |text| && Built(a, parts, text, cursor, tokens, k)
      invariant AllShown(a, parts, text, tokens, k) && EndOfWordsBefore(parts, k) == cursor
    {
      var range := None;
      if tokens[k] != "" {
        range := FindWordRange(a, text, tokens[k], cursor);
      }
      if range.Some? {
        parts := AddWord(a, parts, text, cursor, tokens, k, range.value);
        cursor := range.value.end;
      } else {
        BuiltNamesMore(a, parts, text, cursor, tokens, k);
        MissingWordIsNotShown(a, parts, text, tokens, k);
      }
    }
    if cursor < |text| {
      var rest := Part(text[cursor..], cursor, None);
      BuiltOneMore(a, parts, text, cursor, |text|, tokens, |tokens|, None);
      LaterPartKeepsAllShown(a, parts, rest, text, tokens, |tokens|);
      parts := parts + [rest];
    }
    assert text[..|text|] == text;
  }

  // ---------------------------------------------------------------------------------------
  // Highlighting the match
  // ---------------------------------------------------------------------------------------

  datatype Piece = Piece(text: string, marked: bool)

  /** A character as shown. */
  datatype Cell = Cell(c: char, marked: bool)

  function Paint(pieces: seq<Piece>): seq<Cell> {
    if pieces == [] then []
    else
      var last := pieces[|pieces| - 1];
      Paint(pieces[..|pieces| - 1]) + seq(|last.text|, i requires 0 <= i < |last.text| => Cell(last.text[i], last.marked))
  }

  /** A text with one interval of its positions marked. */
  function Marked(text: string, offset: nat, low: int, high: int): seq<Cell> {
    seq(|text|, i requires 0 <= i < |text| => Cell(text[i], low <= offset + i < high))
  }

  function HighlightedSlice(text: string, offset: nat, low: int, high: int): seq<Piece> {
    var localStart := if low - offset > 0 then low - offset else 0;
    var localEnd := if high - offset < |text| then high - offset else |text|;
    if localStart >= localEnd then [Piece(text, false)]
    else [Piece(text[..localStart], false), Piece(text[localStart..localEnd], true), Piece(text[localEnd..], false)]
  }

  lemma PaintThree(x: Piece, y: Piece, z: Piece)
    ensures Paint([x]) == Paint([]) + Paint([x])
    ensures Paint([x, y, z]) == Paint([x]) + Paint([y]) + Paint([z])
  {
    assert [x, y, z][..2] == [x, y] && [x, y][..1] == [x] && [x][..0] == [] && [y][..0] == [] && [z][..0] == [];
  }

  lemma PaintOne(x: Piece)
    ensures Paint([x]) == seq(|x.text|, i requires 0 <= i < |x.text| => Cell(x.text[i], x.marked))
  {
    assert [x][..0] == [];
  }

  /** A piece outside the interval is plain, one inside it is marked. */
  lemma PieceIsMarked(text: string, offset: nat, low: int, high: int, marked: bool)
    requires marked ==> low <= offset && offset + |text| <= high
    requires !marked ==> text == "" || offset + |text| <= low || high <= offset || high <= low
    ensures Paint([Piece(text, marked)]) == Marked(text, offset, low, high)
  {
    PaintOne(Piece(text, marked));
  }

  lemma MarkedSplits(text: string, offset: nat, low: int, high: int, start: nat, end: nat)
    requires start <= end <= |text|
    ensures Marked(text, offset, low, high)
         == Marked(text[..start], offset, low, high) + Marked(text[start..end], offset + start, low, high)
            + Marked(text[end..], offset + end, low, high)
  {
  }

  /** Text before the interval, within it and after it. */
  lemma SplitIsMarked(text: string, offset: nat, low: int, high: int, start: nat, end: nat)
    requires start <= end <= |text|
    requires start == 0 || offset + start <= low
    requires low <= offset + start && offset + end <= high
    requires end == |text| || high <= offset + end
    ensures Paint([Piece(text[..start], false), Piece(text[start..end], true), Piece(text[end..], false)])
         == Marked(text, offset, low, high)
  {
    var x, y, z := Piece(text[..start], false), Piece(text[start..end], true), Piece(text[end..], false);
    PaintThree(x, y, z);
    PieceIsMarked(x.text, offset, low, high, false);
    PieceIsMarked(y.text, offset + start, low, high, true);
    PieceIsMarked(z.text, offset + end, low, high, false);
    MarkedSplits(text, offset, low, high, start, end);
  }

  lemma SliceMarksItsShare(text: string, offset: nat, low: int, high: int)
    ensures Paint(HighlightedSlice(text, offset, low, high)) == Marked(text, offset, low, high)
  {
    var start := if low - offset > 0 then low - offset else 0;
    var end := if high - offset < |text| then high - offset else |text|;
    if start >= end {
      PieceIsMarked(text, offset, low, high, false);
    } else {
      SplitIsMarked(text, offset, low, high, start, end);
    }
  }

  /** All parts as shown, one after the other. */
  function Shown(parts: seq<Part>, low: int, high: int): seq<Cell> {
    if parts == [] then []
    else
      var last := parts[|parts| - 1];
      Shown(parts[..|parts| - 1], low, high) + Paint(HighlightedSlice(last.text, last.start, low, high))
  }

  lemma MarkedAdds(text: string, more: string, low: int, high: int)
    ensures Marked(text, 0, low, high) + Marked(more, |text|, low, high) == Marked(text + more, 0, low, high)
  {
  }

  lemma EarlierPartsPlaced(parts: seq<Part>)
    requires parts != [] && AllPlaced(parts)
    ensures AllPlaced(parts[..|parts| - 1])
    ensures parts[|parts| - 1].start == |PartsText(parts[..|parts| - 1])|
  {
    var rest := parts[..|parts| - 1];
    forall i | 0 <= i < |rest| ensures Placed(rest, i) {
      assert Placed(parts, i) && rest[..i] == parts[..i];
    }
    assert Placed(parts, |parts| - 1);
  }

  lemma {:induction false} ShownIsMarked(parts: seq<Part>, low: int, high: int)
    requires AllPlaced(parts)
    ensures Shown(parts, low, high) == Marked(PartsText(parts), 0, low, high)
  {
    if parts != [] {
      var rest, last := parts[..|parts| - 1], parts[|parts| - 1];
      EarlierPartsPlaced(parts);
      ShownIsMarked(rest, low, high);
      SliceMarksItsShare(last.text, last.start, low, high);
      MarkedAdds(PartsText(rest), last.text, low, high);
    }
  }

  /** However a text is tiled, highlighting it part by part marks exactly the match. */
  lemma HighlightsExactlyTheMatch(parts: seq<Part>, text: string, low: int, high: int)
    requires Tiles(parts, text)
    ensures Shown(parts, low, high) == Marked(text, 0, low, high)
  {
    ShownIsMarked(parts, low, high);
  }

  datatype Interval = Interval(low: int, high: int)

  const NO_MATCH := Interval(-1, -1)

  /** The interval of the first match of a search term, trimmed, or none. */
  function MatchOf(a: Alphabet, text: string, term: string): Interval {
    if term == "" then NO_MATCH
    else
      var start := IndexOf(Lower(a, text), Lower(a, term), 0);
      if start.None? then NO_MATCH else Interval(start.value, start.value + |term|)
  }

  /** The stretch at `i` equals the term up to case. */
  ghost predicate IsTermAt(a: Alphabet, text: string, term: string, i: nat) {
    i + |term| <= |text| && Lower(a, text[i..i + |term|]) == Lower(a, term)
  }

  lemma TermOccurs(a: Alphabet, text: string, term: string, i: nat)
    ensures IsTermAt(a, text, term, i) <==> OccursAt(Lower(a, text), Lower(a, term), i)
  {
    if i + |term| <= |text| {
      assert Lower(a, text[i..i + |term|]) == Lower(a, text)[i..i + |term|];
    }
  }

  /** The interval is that of the first stretch equal to the term up to case, if there is one. */
  lemma MatchIsTheFirstTerm(a: Alphabet, text: string, term: string, i: nat)
    requires term != ""
    ensures var m := MatchOf(a, text, term);
            if m == NO_MATCH then !IsTermAt(a, text, term, i)
            else 0 <= m.low < m.high <= |text| && IsTermAt(a, text, term, m.low) && m.high == m.low + |term|
                 && (i < m.low ==> !IsTermAt(a, text, term, i))
  {
    TermOccurs(a, text, term, i);
    var start := IndexOf(Lower(a, text), Lower(a, term), 0);
    if start.Some? {
      TermOccurs(a, text, term, start.value);
    }
  }

  /** A turn shown word by word is its text, with the first match of the search term marked. */
  method TimedTranscriptText(a: Alphabet, text: string, tokens: seq<string>, term: string) returns (cells: seq<Cell>)
    ensures cells == Marked(text, 0, MatchOf(a, text, term).low, MatchOf(a, text, term).high)
  {
    var low, high := MatchOf(a, text, term).low, MatchOf(a, text, term).high;
    var parts := BuildParts(a, text, tokens);
    HighlightsExactlyTheMatch(parts, text, low, high);
    cells := [];
    for i := 0 to |parts|
      invariant cells == Shown(parts[..i], low, high)
    {
      assert parts[..i + 1][..i] == parts[..i];
      cells := cells + Paint(HighlightedSlice(parts[i].text, parts[i].start, low, high));
    }
    assert parts[..|parts|] == parts;
  }
}
