/**
 * Prompt suggestions under the generator's prompt box: once the prompt has
 * more than two characters, up to three canned prompts that contain it, or
 * contain one of its space-separated words, ignoring case.
 */
module PromptSuggestions {
  import Text
  import Sequences

  const AllSuggestions: seq<string> := [
    "a futuristic cityscape at sunset with neon lights",
    "a majestic dragon flying over mountains",
    "a cozy cabin in a snowy forest",
    "a surreal underwater world with floating islands",
    "a steampunk airship in the clouds",
    "a magical forest with glowing mushrooms",
    "a cyberpunk street scene at night",
    "a peaceful zen garden with cherry blossoms",
    "a space station orbiting a distant planet",
    "a vintage car on a desert highway"
  ]

  /** Suggestions are looked for only past this many characters. */
  const MinPromptLength: nat := 2
  const MaxShown: nat := 3

  /** `prompt.toLowerCase().split(' ')`. */
  function Words(prompt: string): seq<string> {
    Text.Split(Text.Lower(prompt), ' ')
  }

  /** The filter's test: the whole prompt, or some word of it, occurs in the suggestion. */
  predicate Suggests(suggestion: string, prompt: string) {
    Text.Contains(Text.Lower(suggestion), Text.Lower(prompt))
    || exists k :: 0 <= k < |Words(prompt)| && Text.Contains(Text.Lower(suggestion), Words(prompt)[k])
  }

  function SuggestsTest(prompt: string): string -> bool {
    s => Suggests(s, prompt)
  }

  /**
   * What the effect stores for a prompt, as written: an empty word (from a
   * trailing or doubled space) counts as occurring in every suggestion.
   */
  function SuggestionsAsWritten(prompt: string): (r: seq<string>)
    ensures |prompt| <= MinPromptLength ==> r == []
    ensures |r| <= MaxShown
    ensures forall s :: s in r ==> s in AllSuggestions && Suggests(s, prompt)
    ensures |prompt| > MinPromptLength ==> r <= Sequences.Filter(AllSuggestions, SuggestsTest(prompt))
    ensures |prompt| > MinPromptLength ==> Sequences.IsSubsequence(r, AllSuggestions)
  {
    if |prompt| > MinPromptLength then FirstMatches(AllSuggestions, SuggestsTest(prompt)) else []
  }

  /** `all.filter(test).slice(0, 3)`. */
  function FirstMatches(all: seq<string>, test: string -> bool): (r: seq<string>)
    ensures |r| <= MaxShown
    ensures forall s :: s in r ==> s in all && test(s)
    ensures r <= Sequences.Filter(all, test)
    ensures Sequences.IsSubsequence(r, all)
  {
    var kept := Sequences.Filter(all, test);
    Sequences.FilterIsSubsequence(all, test);
    PrefixIsSubsequence(Sequences.Take(kept, MaxShown), kept, all);
    Sequences.Take(kept, MaxShown)
  }

  /** A prefix of a subsequence is a subsequence. */
  lemma {:induction false} PrefixIsSubsequence(p: seq<string>, a: seq<string>, b: seq<string>)
    requires p <= a && Sequences.IsSubsequence(a, b)
    ensures Sequences.IsSubsequence(p, b)
    decreases |b|
  {
    if p != [] {
      assert a != [];
      if b != [] && a[0] == b[0] && Sequences.IsSubsequence(a[1..], b[1..]) {
        PrefixIsSubsequence(p[1..], a[1..], b[1..]);
      } else {
        PrefixIsSubsequence(p, a, b[1..]);
      }
    } else if b != [] {
      SubsequenceOfEmpty(b);
    }
  }

  lemma {:induction false} SubsequenceOfEmpty(b: seq<string>)
    ensures Sequences.IsSubsequence([], b)
  {
    if b != [] {
      SubsequenceOfEmpty(b[1..]);
    }
  }

  /**
   * When more than three suggestions pass, exactly the first three of them are
   * shown; otherwise every passing suggestion is.
   */
  lemma ShowsFirstPassing(prompt: string)
    requires |prompt| > MinPromptLength
    ensures SuggestionsAsWritten(prompt) == Sequences.Take(Sequences.Filter(AllSuggestions, SuggestsTest(prompt)), MaxShown)
    ensures forall s :: s in AllSuggestions && Suggests(s, prompt)
                        && |Sequences.Filter(AllSuggestions, SuggestsTest(prompt))| <= MaxShown
                        ==> s in SuggestionsAsWritten(prompt)
  {
  }

  /** An empty word is contained in every suggestion, so every suggestion passes. */
  lemma {:induction false} EmptyWordMatchesAll(prompt: string)
    requires exists k :: 0 <= k < |Words(prompt)| && Words(prompt)[k] == []
    ensures forall s :: Suggests(s, prompt)
  {
    var k :| 0 <= k < |Words(prompt)| && Words(prompt)[k] == [];
    forall s ensures Suggests(s, prompt) {
      Text.ContainsEmpty(Text.Lower(s));
    }
  }

  /** With every suggestion passing, the first three of the list are shown. */
  lemma AllPassShowsFirstThree(prompt: string)
    requires |prompt| > MinPromptLength
    requires forall s :: Suggests(s, prompt)
    ensures SuggestionsAsWritten(prompt) == AllSuggestions[..MaxShown]
  {
    var all := AllSuggestions;
    assert Sequences.Take(all, MaxShown) == all[..MaxShown] by {
      assert |all| == 10;
    }
    assert forall i :: 0 <= i < |all| ==> SuggestsTest(prompt)(all[i]) by {
      forall i | 0 <= i < |all| ensures SuggestsTest(prompt)(all[i]) {
        assert Suggests(all[i], prompt);
      }
    }
    FirstMatchesAllPass(all, SuggestsTest(prompt));
  }

  lemma FirstMatchesAllPass(all: seq<string>, test: string -> bool)
    requires forall i :: 0 <= i < |all| ==> test(all[i])
    ensures FirstMatches(all, test) == Sequences.Take(all, MaxShown)
  {
    Sequences.FilterAll(all, test);
  }

  /** Lower-casing keeps a space a space. */
  lemma LowerSpace()
    ensures Text.Lower([' ']) == [' ']
  {
    assert Text.Lower([' '])[0] == Text.LowerChar(' ');
  }

  /**
   * A prompt ending in a space splits into a last, empty word: every
   * suggestion matches it and the first three are shown, whatever else the
   * prompt says.
   */
  lemma TrailingSpaceShowsFirstThree(text: string)
    requires |text| >= MinPromptLength
    ensures SuggestionsAsWritten(text + [' ']) == AllSuggestions[..MaxShown]
  {
    var prompt := text + [' '];
    Text.LowerAppend(text, [' ']);
    LowerSpace();
    Text.SplitTrailing(Text.Lower(text), ' ');
    assert Words(prompt)[|Words(prompt)| - 1] == [];
    EmptyWordMatchesAll(prompt);
    AllPassShowsFirstThree(prompt);
  }

  /** Two spaces in a row leave an empty word in between, with the same effect. */
  lemma DoubleSpaceShowsFirstThree(a: string, b: string)
    requires |a| + |b| >= 1
    ensures SuggestionsAsWritten(a + [' ', ' '] + b) == AllSuggestions[..MaxShown]
  {
    var prompt := a + [' ', ' '] + b;
    assert Text.Lower([' ', ' ']) == [' ', ' '] by {
      assert Text.Lower([' ', ' '])[0] == Text.LowerChar(' ');
      assert Text.Lower([' ', ' '])[1] == Text.LowerChar(' ');
    }
    Text.LowerAppend(a, [' ', ' ']);
    Text.LowerAppend(a + [' ', ' '], b);
    assert Text.Lower(prompt) == Text.Lower(a) + [' ', ' '] + Text.Lower(b);
    Text.SplitDouble(Text.Lower(a), Text.Lower(b), ' ');
    var k :| 1 <= k < |Text.Split(Text.Lower(a) + [' ', ' '] + Text.Lower(b), ' ')|
             && Text.Split(Text.Lower(a) + [' ', ' '] + Text.Lower(b), ' ')[k] == [];
    assert Words(prompt)[k] == [];
    EmptyWordMatchesAll(prompt);
    AllPassShowsFirstThree(prompt);
  }

  /** The discrepancy: past a trailing space the words typed make no difference at all. */
  lemma TrailingSpaceIgnoresWords(text: string, other: string)
    requires |text| >= MinPromptLength && |other| >= MinPromptLength
    ensures SuggestionsAsWritten(text + [' ']) == SuggestionsAsWritten(other + [' '])
  {
    TrailingSpaceShowsFirstThree(text);
    TrailingSpaceShowsFirstThree(other);
  }

  // ---------------------------------------------------------------- the intended filter

  /** The test with empty words skipped: the whole prompt or a real word of it occurs in the suggestion. */
  predicate SharesWord(suggestion: string, prompt: string) {
    Text.Contains(Text.Lower(suggestion), Text.Lower(prompt))
    || exists k :: 0 <= k < |Words(prompt)| && Words(prompt)[k] != []
                   && Text.Contains(Text.Lower(suggestion), Words(prompt)[k])
  }

  function SharesWordTest(prompt: string): string -> bool {
    s => SharesWord(s, prompt)
  }

  /**
   * The suggestions the component means to offer: up to three, in list order,
   * each holding a non-empty piece of the prompt, ignoring case.
   */
  function SuggestionsFor(prompt: string): (r: seq<string>)
    ensures |prompt| <= MinPromptLength ==> r == []
    ensures |r| <= MaxShown
    ensures forall s :: s in r ==> s in AllSuggestions && HoldsPiece(s, prompt)
    ensures |prompt| > MinPromptLength ==> Sequences.IsSubsequence(r, AllSuggestions)
  {
    if |prompt| > MinPromptLength then
      var r := FirstMatches(AllSuggestions, SharesWordTest(prompt));
      SharedPieces(prompt, r);
      r
    else []
  }

  /** `s` holds a non-empty piece of the prompt, ignoring case: the whole prompt or one of its words. */
  predicate HoldsPiece(s: string, prompt: string) {
    exists w :: w in [Text.Lower(prompt)] + Words(prompt) && w != [] && Text.Contains(Text.Lower(s), w)
  }

  /** Every suggestion passing the intended test holds a non-empty piece of a long enough prompt. */
  lemma SharedPieces(prompt: string, r: seq<string>)
    requires |prompt| > MinPromptLength
    requires forall s :: s in r ==> SharesWord(s, prompt)
    ensures forall s :: s in r ==> HoldsPiece(s, prompt)
  {
    forall s | s in r
      ensures HoldsPiece(s, prompt)
    {
      if Text.Contains(Text.Lower(s), Text.Lower(prompt)) {
        assert |Text.Lower(prompt)| == |prompt|;
        assert Text.Lower(prompt) in [Text.Lower(prompt)] + Words(prompt);
      } else {
        var k :| 0 <= k < |Words(prompt)| && Words(prompt)[k] != []
                 && Text.Contains(Text.Lower(s), Words(prompt)[k]);
        assert Words(prompt)[k] in [Text.Lower(prompt)] + Words(prompt);
      }
    }
  }

  /** Where the prompt has no empty word the intended filter and the written one agree. */
  lemma IntendedAgreesWithoutEmptyWords(prompt: string)
    requires forall k :: 0 <= k < |Words(prompt)| ==> Words(prompt)[k] != []
    ensures SuggestionsFor(prompt) == SuggestionsAsWritten(prompt)
  {
    Sequences.FilterSame(AllSuggestions, SharesWordTest(prompt), SuggestsTest(prompt));
  }

  /** As written, `suggestions.length === 0` tests the list the effect stored. */
  predicate RenderedAsWritten(prompt: string) {
    SuggestionsAsWritten(prompt) != []
  }

  /** The corrected panel: it renders only when the intended filter keeps something. */
  predicate Rendered(prompt: string) {
    SuggestionsFor(prompt) != []
  }

  /** A short prompt opens neither panel. */
  lemma ShortPromptRendersNothing(prompt: string)
    requires |prompt| <= MinPromptLength
    ensures !Rendered(prompt) && !RenderedAsWritten(prompt)
  {
  }

  /** As written, a trailing space opens the panel whatever was typed before it (`"zzz "` shows three badges). */
  lemma TrailingSpaceRendersAsWritten(text: string)
    requires |text| >= MinPromptLength
    ensures RenderedAsWritten(text + [' '])
  {
    TrailingSpaceShowsFirstThree(text);
  }
}
