/**
 What cleaning makes of a model's answer about a frame (src-tauri/src/local_agent.rs: bounded_visual_text and the checks of
 parse_visual_speaker_response): texts become their words joined by single spaces, and an answer is accepted exactly if its
 texts are short enough and say something, and its confidence and its name fit.
 */
module VisualAnswers {
  import opened Wrappers
  import opened SpeakerNames
  import opened VisualObservations

  // ---------------------------------------------------------------------------------------
  // Words
  // ---------------------------------------------------------------------------------------

  ghost predicate IsWord(word: string) {
    word != "" && forall i :: 0 <= i < |word| ==> !IsSpace(word[i])
  }

  /** The runs of characters between spaces, in order. */
  function Words(s: string): (words: seq<string>)
    ensures forall k :: 0 <= k < |words| ==> IsWord(words[k])
    ensures words == [] <==> AllSpaces(s)
  {
    if s == "" then []
    else
      var init, last := s[..|s| - 1], s[|s| - 1];
      var words := Words(init);
      assert AllSpaces(s) <==> AllSpaces(init) && IsSpace(last);
      if IsSpace(last) then words
      else if init != "" && !IsSpace(init[|init| - 1]) then
        assert !AllSpaces(init);
        words[..|words| - 1] + [words[|words| - 1] + [last]]
      else words + [[last]]
  }

  function Join(words: seq<string>): string {
    if words == [] then ""
    else if |words| == 1 then words[0]
    else Spaced(Join(words[..|words| - 1]), words[|words| - 1])
  }

  lemma JoinOneMore(words: seq<string>, word: string)
    ensures Join(words + [word]) == if words == [] then word else Spaced(Join(words), word)
  {
    assert (words + [word])[..|words|] == words;
  }

  lemma SpacedLonger(text: string, word: string, more: string)
    ensures Spaced(text, word + more) == Spaced(text, word) + more
  {
    assert text + " " + (word + more) == text + " " + word + more;
  }

  lemma JoinLonger(init: seq<string>, last: string, more: string)
    ensures Join(init + [last + more]) == Join(init + [last]) + more
  {
    JoinOneMore(init, last);
    JoinOneMore(init, last + more);
    SpacedLonger(Join(init), last, more);
  }

  lemma JoinSaysSomething(words: seq<string>)
    requires forall k :: 0 <= k < |words| ==> IsWord(words[k])
    ensures Join(words) == "" <==> words == []
  {
    if words != [] {
      var init, last := words[..|words| - 1], words[|words| - 1];
      assert |Join(words)| == if init == [] then |last| else |Join(init)| + 1 + |last|;
      assert IsWord(last);
    }
  }

  lemma CollapseOneMore(s: string)
    requires s != ""
    ensures var init, last := s[..|s| - 1], s[|s| - 1];
            Collapse(s) == if IsSpace(last) then Collapse(init)
                           else Extended(Collapse(init), init != "" && IsSpace(init[|init| - 1]), last)
  {
  }

  lemma WordsOneMore(init: string, last: char)
    ensures var words := Words(init);
            && (IsSpace(last) ==> Words(init + [last]) == words)
            && (!IsSpace(last) && (init == "" || IsSpace(init[|init| - 1])) ==> Words(init + [last]) == words + [[last]])
            && (!IsSpace(last) && init != "" && !IsSpace(init[|init| - 1]) ==>
                  words != [] && Words(init + [last]) == words[..|words| - 1] + [words[|words| - 1] + [last]])
  {
    assert (init + [last])[..|init|] == init;
    assert init != "" && !IsSpace(init[|init| - 1]) ==> !AllSpaces(init);
  }

  lemma NextCharacterJoins(init: string, last: char)
    requires Collapse(init) == Join(Words(init))
    ensures Collapse(init + [last]) == Join(Words(init + [last]))
  {
    assert (init + [last])[..|init|] == init && (init + [last])[|init|] == last;
    CollapseOneMore(init + [last]);
    WordsOneMore(init, last);
    JoinSaysSomething(Words(init));
    if !IsSpace(last) {
      if init != "" && !IsSpace(init[|init| - 1]) {
        var words := Words(init);
        assert words == words[..|words| - 1] + [words[|words| - 1]];
        JoinLonger(words[..|words| - 1], words[|words| - 1], [last]);
      } else {
        JoinOneMore(Words(init), [last]);
      }
    }
  }

  /** Collapsing spaces leaves the words, one space apart. */
  lemma {:induction false} CollapsingJoinsTheWords(s: string)
    ensures Collapse(s) == Join(Words(s))
  {
    if s != "" {
      CollapsingJoinsTheWords(s[..|s| - 1]);
      NextCharacterJoins(s[..|s| - 1], s[|s| - 1]);
      assert s == s[..|s| - 1] + [s[|s| - 1]];
    }
  }

  // ---------------------------------------------------------------------------------------
  // One answer
  // ---------------------------------------------------------------------------------------

  /** A text that is short enough and says something. */
  ghost predicate Acceptable(text: string, maximum: nat) {
    |text| <= maximum && !AllSpaces(text)
  }

  lemma TextsAreAcceptedExactly(text: string, maximum: nat)
    ensures Bounded(text, maximum) == if Acceptable(text, maximum) then Ok(Join(Words(text))) else Err(InvalidResponse)
  {
    CollapsingJoinsTheWords(text);
    JoinSaysSomething(Words(text));
  }

  function Tidied(text: Option<string>): Option<string> {
    if text.Some? then Some(Join(Words(text.value))) else None
  }

  ghost predicate OptionallyAcceptable(text: Option<string>, maximum: nat) {
    text.Some? ==> Acceptable(text.value, maximum)
  }

  /** A name that is not just the word for having none, in any case. */
  ghost predicate NamesSomebody(name: Option<string>) {
    name.Some? ==> ToLowerAscii(Join(Words(name.value))) != "unknown"
  }

  ghost predicate AnswerFits(o: Observation) {
    && OptionallyAcceptable(o.name, 120) && OptionallyAcceptable(o.system, 80) && Acceptable(o.evidence, 240)
    && NamesSomebody(o.name)
    && (if o.name.Some? then o.confidence == "Review" || o.confidence == "high" else o.confidence == "Unknown")
  }

  /** An answer is accepted exactly if it fits, and then stands with its texts tidied and nothing else changed. */
  lemma AnswersAreAcceptedExactly(o: Observation)
    ensures Clean(o)
         == if AnswerFits(o) then Ok(Observation(o.frame, Tidied(o.name), Tidied(o.system), o.confidence, Join(Words(o.evidence))))
            else Err(InvalidResponse)
  {
    if o.name.Some? {
      TextsAreAcceptedExactly(o.name.value, 120);
    }
    if o.system.Some? {
      TextsAreAcceptedExactly(o.system.value, 80);
    }
    TextsAreAcceptedExactly(o.evidence, 240);
  }

  /** A frame is acceptable exactly if it names a turn and a speaker briefly, is not before the start, and is a small JPEG. */
  lemma FramesAreAcceptedExactly(f: Frame)
    ensures ValidFrame(f)
       <==> && Acceptable(f.turn, 256) && Acceptable(f.speaker, 256)
            && 0 <= f.atMs && f.looksLikeJpeg && f.jpegBytes <= 2 * 1024 * 1024
  {
    TrimLeavesTheStretch(f.turn, "");
    TrimLeavesTheStretch(f.speaker, "");
  }
}
