/** Frontend/src/components/CreativeTherapy.js: the favourites toggle, the
    daily challenge chosen for a mood, and the empty-content guard on submit. */
module CreativeClient {
  import opened Common
  import opened Text
  import opened Lists
  import CreativeRoutes

  /** `toggleFavorite`: a favourite prompt is removed (every copy of it), any
      other prompt is added at the end. */
  function ToggleFavorite(favorites: seq<string>, prompt: string): (r: seq<string>)
    ensures prompt in favorites ==> prompt !in r && IsSubsequence(r, favorites)
    ensures prompt !in favorites ==> r == favorites + [prompt]
    ensures forall other | other != prompt :: (other in r <==> other in favorites)
  {
    if prompt in favorites then RemoveAll(favorites, prompt) else favorites + [prompt]
  }

  /** `isFavorite`: the prompt is among the favourites. */
  predicate IsFavorite(favorites: seq<string>, prompt: string) {
    prompt in favorites
  }

  /** A toggle flips whether the prompt is a favourite. */
  lemma ToggleFlipsFavorite(favorites: seq<string>, prompt: string)
    ensures IsFavorite(ToggleFavorite(favorites, prompt), prompt) <==> !IsFavorite(favorites, prompt)
  {
  }

  /** Toggling a prompt that is not a favourite twice gives the list back. */
  lemma ToggleTwiceRestores(favorites: seq<string>, prompt: string)
    requires prompt !in favorites
    ensures ToggleFavorite(ToggleFavorite(favorites, prompt), prompt) == favorites
  {
    RemoveAllAppended(favorites, prompt);
  }

  /** A toggle keeps a list free of duplicates. */
  lemma ToggleKeepsDistinct(favorites: seq<string>, prompt: string)
    requires NoDuplicates(favorites)
    ensures NoDuplicates(ToggleFavorite(favorites, prompt))
  {
    var r := ToggleFavorite(favorites, prompt);
    if prompt !in favorites {
      assert multiset(r) == multiset(favorites) + multiset{prompt};
    }
  }

  /** The favourites after a run of toggles. */
  function ToggleAll(favorites: seq<string>, prompts: seq<string>): seq<string>
    decreases |prompts|
  {
    if prompts == [] then favorites
    else ToggleAll(ToggleFavorite(favorites, prompts[0]), prompts[1..])
  }

  /** Starting from no favourites, no run of toggles produces a duplicate. */
  lemma {:induction false} ToggleAllDistinct(favorites: seq<string>, prompts: seq<string>)
    requires NoDuplicates(favorites)
    ensures NoDuplicates(ToggleAll(favorites, prompts))
    decreases |prompts|
  {
    if prompts != [] {
      ToggleKeepsDistinct(favorites, prompts[0]);
      ToggleAllDistinct(ToggleFavorite(favorites, prompts[0]), prompts[1..]);
    }
  }

  /** The corollary for the initial, empty list of favourites. */
  lemma FavoritesNeverRepeat(prompts: seq<string>)
    ensures NoDuplicates(ToggleAll([], prompts))
  {
    ToggleAllDistinct([], prompts);
  }

  const SelectMoodText: string := "Select a mood to get your daily creative challenge."
  const FallbackChallenge: string := "Create something that expresses your current feelings."

  /** The daily challenge text for each suggested mood, keyed by the lower-case mood. */
  const DailyChallenges: map<string, string> := map[
    "happy" := "Write a poem celebrating a joyful moment.",
    "sad" := "Draw a picture that represents overcoming sadness.",
    "calm" := "Compose a short calming melody or describe your peaceful place.",
    "anxious" := "Express your anxieties in a freeform journal entry.",
    "angry" := "Channel anger into abstract art or powerful poetry.",
    "neutral" := "Create something that reflects neutrality and balance."
  ]

  /** The challenge the mood effect shows: a prompt to pick a mood when none is
      chosen, the mood's daily challenge (case-insensitively), and the generic
      challenge for a mood outside the table. */
  function Challenge(mood: string): (text: string)
    ensures mood == "" ==> text == SelectMoodText
    ensures mood != "" && Lower(mood) in DailyChallenges ==> text == DailyChallenges[Lower(mood)]
    ensures mood != "" && Lower(mood) !in DailyChallenges ==> text == FallbackChallenge
    ensures text != SelectMoodText <==> mood != ""
  {
    if mood == "" then SelectMoodText
    else if Lower(mood) in DailyChallenges then DailyChallenges[Lower(mood)]
    else FallbackChallenge
  }

  /** The challenge depends on the mood's letters, not their case. */
  lemma ChallengeIgnoresCase(mood: string)
    ensures Challenge(Lower(mood)) == Challenge(mood)
  {
    LowerIdempotent(mood);
  }

  /** Each of the mood chips, whatever its capitalisation, has its own challenge. */
  lemma SuggestedMoodsHaveChallenges()
    ensures Lower("Happy") in DailyChallenges && Lower("Sad") in DailyChallenges
    ensures Lower("Calm") in DailyChallenges && Lower("Anxious") in DailyChallenges
    ensures Lower("Angry") in DailyChallenges && Lower("Neutral") in DailyChallenges
  {
    assert Lower("Happy") == "happy";
    assert Lower("Sad") == "sad";
    assert Lower("Calm") == "calm";
    assert Lower("Anxious") == "anxious";
    assert Lower("Angry") == "angry";
    assert Lower("Neutral") == "neutral";
  }

  /** The five prompts the "random prompt" button draws from. */
  const RandomPrompts: seq<string> := [
    "Write a letter to your future self.",
    "Describe a place you\U{2019}d love to visit.",
    "Create a poem about the color blue.",
    "Sketch a scene from a dream you had.",
    "List 5 things you\U{2019}re grateful for today."
  ]

  /** `handleRandomPrompt` with the random draw as a parameter: a whole number
      below five, chosen uniformly by the component, picks one of the five prompts. */
  function RandomPrompt(draw: nat): (p: string)
    requires draw < |RandomPrompts|
    ensures p in RandomPrompts
  {
    RandomPrompts[draw]
  }

  const EmptyContentError: string := "Please input your creative content or link."
  const SubmitFailedError: string := "Failed to submit content."

  /** The POST body of a submission. */
  datatype Submission = Submission(contentType: string, contentData: string, mood: string)

  /** The form state `handleSubmit` reads and writes. */
  datatype Form = Form(contentType: string, contentData: string, mood: string, error: string)

  /** `handleSubmit` up to its request: empty content (not trimmed) sets the
      error and posts nothing; otherwise the error is cleared and the form's
      fields are posted as they are. */
  function StartSubmit(f: Form): (r: (Form, Option<Submission>))
    ensures r.1.None? <==> f.contentData == ""
    ensures r.1.None? ==> r.0 == f.(error := EmptyContentError)
    ensures r.1.Some? ==> r.0 == f.(error := "")
    ensures r.1.Some? ==> r.1.value == Submission(f.contentType, f.contentData, f.mood)
  {
    if f.contentData == "" then (f.(error := EmptyContentError), None)
    else (f.(error := ""), Some(Submission(f.contentType, f.contentData, f.mood)))
  }

  /** `handleSubmit` after the request: success clears the content, failure reports it. */
  function FinishSubmit(f: Form, ok: bool): (r: Form)
    ensures ok ==> r == f.(contentData := "")
    ensures !ok ==> r == f.(error := SubmitFailedError)
  {
    if ok then f.(contentData := "") else f.(error := SubmitFailedError)
  }

  /** A whitespace-only entry is not empty: it passes the guard and is posted unchanged. */
  lemma BlankContentIsPosted(f: Form)
    requires f.contentData != "" && IsBlank(f.contentData)
    ensures StartSubmit(f).1.Some? && StartSubmit(f).1.value.contentData == f.contentData
  {
  }

  /** A submission the guard lets through is stored by the server with the
      form's type, content and mood, under the author's id. */
  lemma SubmissionStored(f: Form, contents: seq<CreativeRoutes.Content>, uid: string, now: int)
    requires StartSubmit(f).1.Some?
    ensures var q := StartSubmit(f).1.value;
            var (after, reply) := CreativeRoutes.Submit(contents, uid, q.contentType, q.contentData, Some(q.mood), now, true);
            && reply.Ok? && after == contents + [reply.value]
            && reply.value.userId == uid && reply.value.contentType == f.contentType
            && reply.value.contentData == f.contentData && reply.value.contentData != ""
            && reply.value.moodAtSubmission == Some(f.mood)
  {
  }
}
