/** Lyrics cleaning (get_lyrics_for_song): the fetched lyrics text, or ""
    when the lyrics service gave nothing, loses its punctuation, is split on
    whitespace, and its tokens are lower-cased and joined with single spaces.
    The HTTP request is not modelled: the fetched text is an input. */
module Lyrics {
  import opened Collections
  import opened Text

  /** The text with every ASCII punctuation character removed, order kept. */
  function StripPunctuation(s: string): (r: string)
    ensures |r| <= |s|
    ensures NoPunctuation(r)
    ensures forall c :: c in r <==> c in s && !IsPunctuation(c)
  {
    if |s| == 0 then ""
    else
      var last := s[|s| - 1];
      assert s == s[..|s| - 1] + [last];
      StripPunctuation(s[..|s| - 1]) + (if IsPunctuation(last) then "" else [last])
  }

  lemma {:induction false} StripPunctuationSnoc(s: string, c: char)
    ensures StripPunctuation(s + [c]) == StripPunctuation(s) + (if IsPunctuation(c) then "" else [c])
  {
    assert (s + [c])[..|s|] == s;
  }

  /** Punctuation is removed character by character: stripping a
      concatenation strips each part, keeping their order. */
  lemma {:induction false} StripPunctuationAppend(a: string, b: string)
    ensures StripPunctuation(a + b) == StripPunctuation(a) + StripPunctuation(b)
    decreases |b|
  {
    if |b| == 0 {
      assert a + b == a;
    } else {
      var init := b[..|b| - 1];
      var c := b[|b| - 1];
      DropLastSnoc(b);
      AppendAssociative(a, init, [c]);
      StripPunctuationAppend(a, init);
      StripPunctuationSnoc(a + init, c);
      StripPunctuationSnoc(init, c);
    }
  }

  /** One turn of the character loop: the next character is kept unless it
      is punctuation. */
  lemma {:induction false} StripPunctuationTake(s: string, i: nat)
    requires i < |s|
    ensures StripPunctuation(s[..i + 1]) == StripPunctuation(s[..i]) + (if IsPunctuation(s[i]) then "" else [s[i]])
  {
    TakeSnoc(s, i);
    StripPunctuationSnoc(s[..i], s[i]);
  }

  /** The comprehension of line 159. */
  function LowerAll(words: seq<string>): (lowered: seq<string>)
    ensures |lowered| == |words|
    ensures forall k :: 0 <= k < |words| ==> |lowered[k]| == |words[k]| && NoUpper(lowered[k])
    ensures forall k :: 0 <= k < |words| ==> lowered[k] == Lower(words[k])
  {
    seq(|words|, k requires 0 <= k < |words| => Lower(words[k]))
  }

  /** What get_lyrics_for_song returns for the fetched text (lines 150-162). */
  function Clean(songLyrics: string): string
  {
    if |songLyrics| == 0 then ""
    else Join(LowerAll(Words(StripPunctuation(songLyrics))), ' ')
  }

  /** Lines 150-160: the character loop that drops punctuation, then the
      split, the lower-casing comprehension and the join. */
  method CleanLyrics(songLyrics: string) returns (cleanedLyrics: string)
    ensures cleanedLyrics == Clean(songLyrics)
  {
    cleanedLyrics := "";
    if |songLyrics| > 0 {
      var i := 0;
      while i < |songLyrics|
        invariant 0 <= i <= |songLyrics|
        invariant cleanedLyrics == StripPunctuation(songLyrics[..i])
      {
        var stringCharacter := songLyrics[i];
        StripPunctuationTake(songLyrics, i);
        if !IsPunctuation(stringCharacter) {
          cleanedLyrics := cleanedLyrics + [stringCharacter];
        }
        i := i + 1;
      }
      assert songLyrics[..i] == songLyrics;
      var words := Words(cleanedLyrics);
      cleanedLyrics := Join(LowerAll(words), ' ');
    }
  }

  lemma {:induction false} LowerAllWords(words: seq<string>)
    requires forall k :: 0 <= k < |words| ==> IsWord(words[k]) && NoPunctuation(words[k])
    ensures forall k :: 0 <= k < |LowerAll(words)| ==>
      IsWord(LowerAll(words)[k]) && NoPunctuation(LowerAll(words)[k]) && NoUpper(LowerAll(words)[k])
  {
  }

  /** The tokens of the cleaned text: the lower-cased whitespace-separated
      tokens of the punctuation-free text, in order. */
  function CleanedTokens(songLyrics: string): (tokens: seq<string>)
    ensures |tokens| == |Words(StripPunctuation(songLyrics))|
    ensures forall k :: 0 <= k < |tokens| ==> tokens[k] == Lower(Words(StripPunctuation(songLyrics))[k])
    ensures forall k :: 0 <= k < |tokens| ==>
      IsWord(tokens[k]) && NoPunctuation(tokens[k]) && NoUpper(tokens[k])
  {
    var stripped := StripPunctuation(songLyrics);
    WordsNoPunctuation(stripped);
    LowerAllWords(Words(stripped));
    LowerAll(Words(stripped))
  }

  lemma {:induction false} CleanIsJoinOfTokens(songLyrics: string)
    ensures Clean(songLyrics) == Join(CleanedTokens(songLyrics), ' ')
  {
    if |songLyrics| == 0 {
      WordsEmpty(StripPunctuation(songLyrics));
    }
  }

  /** Cleaned lyrics hold no ASCII punctuation, no upper-case ASCII letter,
      no whitespace but single spaces, and no leading, trailing or doubled
      space. */
  lemma {:induction false} CleanShape(songLyrics: string)
    ensures NoPunctuation(Clean(songLyrics))
    ensures NoUpper(Clean(songLyrics))
    ensures forall i :: 0 <= i < |Clean(songLyrics)| && IsSpace(Clean(songLyrics)[i]) ==> Clean(songLyrics)[i] == ' '
    ensures WellSpaced(Clean(songLyrics))
  {
    var tokens := CleanedTokens(songLyrics);
    var c := Clean(songLyrics);
    CleanIsJoinOfTokens(songLyrics);
    JoinWellSpaced(tokens);
    forall i | 0 <= i < |c|
      ensures !IsPunctuation(c[i]) && !IsUpper(c[i]) && (IsSpace(c[i]) ==> c[i] == ' ')
    {
      JoinChars(tokens, ' ', c[i]);
      if c[i] != ' ' {
        var k :| 0 <= k < |tokens| && c[i] in tokens[k];
        var m :| 0 <= m < |tokens[k]| && tokens[k][m] == c[i];
      }
    }
  }

  /** Splitting cleaned lyrics on single spaces, as the word count does, gives
      back exactly the cleaning's tokens; whitespace splitting does too. So the
      count equals the number of tokens found before lower-casing. */
  lemma {:induction false} CleanTokens(songLyrics: string)
    requires Clean(songLyrics) != ""
    ensures Split(Clean(songLyrics), ' ') == CleanedTokens(songLyrics)
    ensures Words(Clean(songLyrics)) == CleanedTokens(songLyrics)
    ensures |Split(Clean(songLyrics), ' ')| == |Words(StripPunctuation(songLyrics))| >= 1
  {
    var tokens := CleanedTokens(songLyrics);
    CleanIsJoinOfTokens(songLyrics);
    assert |tokens| >= 1;
    forall k | 0 <= k < |tokens| ensures ' ' !in tokens[k] {
      assert IsWord(tokens[k]);
      assert IsSpace(' ');
    }
    SplitJoin(tokens, ' ');
    WordsJoin(tokens);
  }

  /** Cleaning yields "" exactly when the fetched text is empty or consists
      only of punctuation and whitespace. */
  lemma {:induction false} CleanEmpty(songLyrics: string)
    ensures Clean(songLyrics) == "" <==>
      forall i :: 0 <= i < |songLyrics| ==> IsPunctuation(songLyrics[i]) || IsSpace(songLyrics[i])
  {
    var stripped := StripPunctuation(songLyrics);
    var tokens := CleanedTokens(songLyrics);
    CleanIsJoinOfTokens(songLyrics);
    WordsEmpty(stripped);
    JoinWellSpaced(tokens);
    assert Clean(songLyrics) == "" <==> |tokens| == 0;
    assert (forall i :: 0 <= i < |stripped| ==> IsSpace(stripped[i])) <==>
      (forall i :: 0 <= i < |songLyrics| ==> IsPunctuation(songLyrics[i]) || IsSpace(songLyrics[i]))
    by {
      if forall i :: 0 <= i < |stripped| ==> IsSpace(stripped[i]) {
        forall i | 0 <= i < |songLyrics| && !IsPunctuation(songLyrics[i])
          ensures IsSpace(songLyrics[i])
        {
          assert songLyrics[i] in stripped;
        }
      }
      if forall i :: 0 <= i < |songLyrics| ==> IsPunctuation(songLyrics[i]) || IsSpace(songLyrics[i]) {
        forall i | 0 <= i < |stripped| ensures IsSpace(stripped[i]) {
          assert stripped[i] in songLyrics;
        }
      }
    }
  }
}
