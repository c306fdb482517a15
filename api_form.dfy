/**
 * The API generation form: its validation schema, the simulated generation
 * that updates the usage statistics, and the download file name.
 */
module ApiForm {
  import opened Wrappers
  import Text
  import Sequences

  /** The form's values. The sliders and inputs produce JavaScript numbers, modelled as reals. */
  datatype FormData = FormData(
    prompt: string,
    model: string,
    style: Option<string>,
    width: real,
    height: real,
    quality: real,
    steps: real,
    guidanceScale: real,
    apiKey: Option<string>)

  /** The fields the schema checks, in the order it lists them. */
  datatype Field = Prompt | Model | Width | Height | Quality | Steps | GuidanceScale

  predicate InRange(x: real, lo: real, hi: real) {
    lo <= x <= hi
  }

  const AllFields: seq<Field> := [Prompt, Model, Width, Height, Quality, Steps, GuidanceScale]

  /** `d` breaks the schema's rule for field `f`. */
  predicate Breaks(d: FormData, f: Field) {
    match f
    case Prompt => |d.prompt| < 5
    case Model => d.model == []
    case Width => !InRange(d.width, 256.0, 2048.0)
    case Height => !InRange(d.height, 256.0, 2048.0)
    case Quality => !InRange(d.quality, 1.0, 100.0)
    case Steps => !InRange(d.steps, 1.0, 50.0)
    case GuidanceScale => !InRange(d.guidanceScale, 1.0, 20.0)
  }

  /** The fields whose schema rule `d` breaks, in schema order. */
  function Issues(d: FormData): (r: seq<Field>)
    ensures Prompt in r <==> |d.prompt| < 5
    ensures Model in r <==> d.model == []
    ensures Width in r <==> !InRange(d.width, 256.0, 2048.0)
    ensures Height in r <==> !InRange(d.height, 256.0, 2048.0)
    ensures Quality in r <==> !InRange(d.quality, 1.0, 100.0)
    ensures Steps in r <==> !InRange(d.steps, 1.0, 50.0)
    ensures GuidanceScale in r <==> !InRange(d.guidanceScale, 1.0, 20.0)
    ensures |r| <= |AllFields|
  {
    var r := Sequences.Filter(AllFields, f => Breaks(d, f));
    assert forall f :: f in r <==> Breaks(d, f) by {
      forall f ensures f in r <==> Breaks(d, f) {
        FieldListed(f);
      }
    }
    r
  }

  lemma FieldListed(f: Field)
    ensures f in AllFields
  {
    var k := match f
      case Prompt => 0 case Model => 1 case Width => 2 case Height => 3
      case Quality => 4 case Steps => 5 case GuidanceScale => 6;
    assert AllFields[k] == f;
  }

  /** The schema accepts `d`: no rule is broken. */
  predicate Accepted(d: FormData) {
    Issues(d) == []
  }

  lemma AcceptedIff(d: FormData)
    ensures Accepted(d) <==>
      |d.prompt| >= 5 && d.model != []
      && 256.0 <= d.width <= 2048.0 && 256.0 <= d.height <= 2048.0
      && 1.0 <= d.quality <= 100.0 && 1.0 <= d.steps <= 50.0 && 1.0 <= d.guidanceScale <= 20.0
  {
    if !Accepted(d) {
      assert Issues(d)[0] in Issues(d);
    }
  }

  const Defaults: FormData :=
    FormData("", "stable-diffusion-xl", Some("photorealistic"), 1024.0, 1024.0, 80.0, 20.0, 7.0, Some(""))

  /** Every default is inside its bounds except the empty prompt, so an untouched form is refused. */
  lemma DefaultsOnlyLackPrompt()
    ensures Issues(Defaults) == [Prompt]
    ensures !Accepted(Defaults)
  {
  }

  /** The check at the top of `onSubmit`: a missing or empty key. */
  predicate MissingKey(d: FormData) {
    d.apiKey.None? || d.apiKey.value == []
  }

  // ---------------------------------------------------------------- usage statistics

  datatype UsageStats = UsageStats(imagesGenerated: int, creditsUsed: int, creditsRemaining: int)

  const InitialStats: UsageStats := UsageStats(42, 128, 872)

  /** Credits one generation costs. */
  const GenerationCost: int := 5

  /** The statistics after one successful generation. */
  function AfterGeneration(s: UsageStats): (r: UsageStats)
    ensures r.imagesGenerated == s.imagesGenerated + 1
    ensures r.creditsUsed == s.creditsUsed + GenerationCost
    ensures r.creditsRemaining == s.creditsRemaining - GenerationCost
    ensures r.creditsUsed + r.creditsRemaining == s.creditsUsed + s.creditsRemaining
  {
    UsageStats(s.imagesGenerated + 1, s.creditsUsed + GenerationCost, s.creditsRemaining - GenerationCost)
  }

  /** The statistics after `n` successful generations from `s`. */
  function Generations(s: UsageStats, n: nat): UsageStats {
    if n == 0 then s else AfterGeneration(Generations(s, n - 1))
  }

  /** `n` generations add `n` images and move `5n` credits from remaining to used. */
  lemma {:induction false} GenerationsClosedForm(s: UsageStats, n: nat)
    ensures Generations(s, n) == UsageStats(s.imagesGenerated + n,
                                            s.creditsUsed + GenerationCost * n,
                                            s.creditsRemaining - GenerationCost * n)
  {
    if n > 0 {
      GenerationsClosedForm(s, n - 1);
    }
  }

  /** Used plus remaining stays at the initial 1000, however many images are generated. */
  lemma CreditsConserved(n: nat)
    ensures Generations(InitialStats, n).creditsUsed + Generations(InitialStats, n).creditsRemaining == 1000
  {
    GenerationsClosedForm(InitialStats, n);
  }

  /** Nothing stops generation when credits run out: the 175th image leaves a negative balance. */
  lemma RemainingGoesNegative()
    ensures Generations(InitialStats, 174).creditsRemaining == 2
    ensures Generations(InitialStats, 175).creditsRemaining == -3
  {
    GenerationsClosedForm(InitialStats, 174);
    GenerationsClosedForm(InitialStats, 175);
  }

  // ---------------------------------------------------------------- the component

  /** A generated image; its SVG data URL is drawn from the model and the quality. */
  datatype GeneratedImage = GeneratedImage(prompt: string, model: string, quality: real, timestamp: int)

  class GeneratorForm {
    var isGenerating: bool
    var progress: real
    var generatedImages: seq<GeneratedImage>
    var stats: UsageStats

    /** Between submissions: idle, progress cleared, and the statistics account for every image shown. */
    predicate Valid()
      reads this
    {
      !isGenerating && progress == 0.0
      && stats == Generations(InitialStats, |generatedImages|)
    }

    constructor ()
      ensures Valid()
      ensures generatedImages == [] && stats == InitialStats
    {
      isGenerating := false;
      progress := 0.0;
      generatedImages := [];
      stats := InitialStats;
    }

    /**
     * `onSubmit(data)`, from the key check to the `finally` block. Without a
     * key nothing changes. Otherwise a completed generation puts the new image
     * first and charges it; `fails` stands for an exception reaching the
     * `catch`, which changes neither list nor statistics. Either way the form
     * ends idle with progress 0.
     */
    method Submit(data: FormData, now: int, fails: bool)
      modifies this
      ensures MissingKey(data) ==> unchanged(this)
      ensures !MissingKey(data) && !fails ==>
        generatedImages == [GeneratedImage(data.prompt, data.model, data.quality, now)] + old(generatedImages)
        && stats == AfterGeneration(old(stats))
      ensures fails ==> generatedImages == old(generatedImages) && stats == old(stats)
      ensures !MissingKey(data) ==> !isGenerating && progress == 0.0
      ensures old(Valid()) ==> Valid()
    {
      if MissingKey(data) {
        return;
      }
      isGenerating := true;
      progress := 0.0;
      if !fails {
        progress := 100.0;
        generatedImages := [GeneratedImage(data.prompt, data.model, data.quality, now)] + generatedImages;
        stats := AfterGeneration(stats);
      }
      isGenerating := false;
      progress := 0.0;
    }
  }

  // ---------------------------------------------------------------- download

  /** Characters of the prompt the file name keeps. */
  const NamePrefixLength: nat := 20

  /**
   * `generated-${prompt.slice(0, 20).replace(/\s+/g, '-')}.png`: the first
   * twenty characters of the prompt, whitespace runs dashed, between a fixed
   * prefix and suffix.
   */
  function DownloadName(prompt: string): (name: string)
    ensures name == "generated-" + Text.ReplaceWhitespaceRuns(Sequences.Take(prompt, NamePrefixLength), "-") + ".png"
    ensures |name| >= 14
    ensures name[..10] == "generated-" && name[|name| - 4..] == ".png"
    ensures Text.NoWhitespace(name)
    ensures |name| <= 10 + NamePrefixLength + 4
  {
    var slug := Text.ReplaceWhitespaceRuns(Sequences.Take(prompt, NamePrefixLength), "-");
    Text.ReplaceLeavesNoWhitespace(Sequences.Take(prompt, NamePrefixLength), "-");
    Text.ReplaceNoLonger(Sequences.Take(prompt, NamePrefixLength), "-");
    Framed(slug);
    "generated-" + slug + ".png"
  }

  /** The prefix and suffix around a whitespace-free slug. */
  lemma Framed(slug: string)
    requires Text.NoWhitespace(slug)
    ensures var name := "generated-" + slug + ".png";
      |name| == 14 + |slug| && name[..10] == "generated-" && name[|name| - 4..] == ".png"
      && Text.NoWhitespace(name)
  {
    var name := "generated-" + slug + ".png";
    assert Text.NoWhitespace("generated-") && Text.NoWhitespace(".png");
    Text.NoWhitespaceAppend("generated-", slug);
    Text.NoWhitespaceAppend("generated-" + slug, ".png");
    assert name[..10] == "generated-";
    assert name[|name| - 4..] == ".png";
  }

  /** Only the first twenty characters of the prompt reach the file name. */
  lemma DownloadNameIgnoresTail(prompt: string, extra: string)
    requires |prompt| >= NamePrefixLength
    ensures DownloadName(prompt + extra) == DownloadName(prompt)
  {
    assert Sequences.Take(prompt + extra, NamePrefixLength) == Sequences.Take(prompt, NamePrefixLength);
  }

  /** A long prompt is named after its first twenty characters. */
  lemma DownloadNameOfLong(prompt: string)
    ensures DownloadName(prompt) == DownloadName(Sequences.Take(prompt, NamePrefixLength))
  {
  }

  /** A short prompt without whitespace appears in the file name verbatim. */
  lemma DownloadNameKeepsWord(prompt: string)
    requires |prompt| <= NamePrefixLength && Text.NoWhitespace(prompt)
    ensures DownloadName(prompt) == "generated-" + prompt + ".png"
  {
    Text.ReplaceIdentity(prompt, "-");
  }

  /** Each whitespace run between two words becomes a single `-`. */
  lemma DownloadNameJoinsWords(word: string, run: string, rest: string)
    requires |word + run + rest| <= NamePrefixLength
    requires word != [] && Text.NoWhitespace(word) && Text.NoWhitespace(rest)
    requires run != [] && forall i :: 0 <= i < |run| ==> Text.IsWhitespace(run[i])
    ensures DownloadName(word + run + rest) == "generated-" + word + "-" + rest + ".png"
  {
    var prompt := word + run + rest;
    assert rest == [] || !Text.IsWhitespace(rest[0]);
    assert Sequences.Take(prompt, NamePrefixLength) == prompt;
    Text.ReplaceRun(word, run, rest, "-");
    Text.ReplaceIdentity(rest, "-");
    assert Text.ReplaceWhitespaceRuns(prompt, "-") == word + "-" + rest;
  }
}
