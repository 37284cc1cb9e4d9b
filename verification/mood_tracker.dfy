/** Frontend/src/components/MoodTracker.js: the submit guard and the number the
    client posts, and the names it shows for stored moods. */
module MoodTracker {
  import opened Common
  import opened Text
  import opened Moods
  import MoodRoutes

  /** `handleMoodSubmit` up to its request: nothing is posted for an empty mood
      or without a token; otherwise the posted body carries the table number of
      the lower-cased mood, or 0 when the table does not list it. */
  function SubmitMood(mood: string, hasToken: bool): (body: Option<MoodValue>)
    ensures body.None? <==> mood == "" || !hasToken
    ensures body.Some? ==> body.value.Num? && 0 <= body.value.n <= 5
    ensures body.Some? ==> (body.value.n == 0 <==> !IsMoodName(Lower(mood)))
  {
    if mood == "" || !hasToken then None else Some(Num(Encode(mood)))
  }

  /** The names of the "recent moods" list, one per listed record, in order. */
  function ShownNames(moods: seq<MoodRoutes.MoodRecord>): (names: seq<string>)
    ensures |names| == |moods|
    ensures forall i | 0 <= i < |moods| :: IsMoodName(names[i]) && names[i] == Decode(moods[i].mood)
  {
    seq(|moods|, i requires 0 <= i < |moods| => Decode(moods[i].mood))
  }

  /** The client's numeric post is stored exactly as the server would store the
      name itself had it been posted as a string. */
  lemma SubmitStoresLikeServer(mood: string)
    requires mood != ""
    ensures var body := SubmitMood(mood, true);
            body.Some? && MoodRoutes.StoredMood(body.value) == MoodRoutes.StoredMood(Str(mood))
  {
  }

  /** A submitted mood name is shown back with the same table value; every name
      but "anxious" is shown as itself. */
  lemma SubmittedMoodShown(mood: string)
    requires IsMoodName(Lower(mood))
    ensures var stored := MoodRoutes.StoredMood(SubmitMood(mood, true).value);
            Encode(Decode(stored)) == Encode(mood)
            && (Lower(mood) != "anxious" ==> Decode(stored) == Lower(mood))
  {
    var name := Lower(mood);
    EncodeIgnoresCase(mood);
    var j :| 0 <= j < |MoodTable| && MoodTable[j].0 == name;
    EncodeEntry(j);
    EncodeDecode(Encode(mood));
    if name != "anxious" {
      DecodeEncodeRoundTrip(name);
    }
  }

  /** An unknown mood is posted as 0 and shown as "neutral". */
  lemma UnknownMoodShownNeutral(mood: string)
    requires mood != "" && !IsMoodName(Lower(mood))
    ensures var stored := MoodRoutes.StoredMood(SubmitMood(mood, true).value);
            stored == Num(0) && Decode(stored) == "neutral"
  {
    DecodeOutOfRange(0);
  }

  /** What `fetchMoods` does with `onMoodChange` after a listing. */
  datatype Callback = NoCall | Call(name: string) | Throws

  /** `fetchMoods` AS WRITTEN: when there is a mood and a callback, the newest
      mood's `toLowerCase()` goes to the callback. A stored number has no
      `toLowerCase`, so the call throws, the `catch` swallows it and the
      callback never runs. */
  function NewestMoodAsWritten(moods: seq<MoodRoutes.MoodRecord>, hasCallback: bool): (c: Callback)
    ensures moods == [] || !hasCallback <==> c == NoCall
    ensures moods != [] && hasCallback && moods[0].mood.Num? <==> c == Throws
    ensures moods != [] && hasCallback && moods[0].mood.Str? ==> c == Call(Lower(moods[0].mood.s))
  {
    if moods == [] || !hasCallback then NoCall
    else match moods[0].mood
      case Str(s) => Call(Lower(s))
      case Num(_) => Throws
  }

  /** Every mood this component posts is stored as a number, so, as written,
      a listing whose newest mood came from here never reaches the callback. */
  lemma SubmittedMoodNeverReported(moods: seq<MoodRoutes.MoodRecord>, mood: string)
    requires mood != "" && moods != []
    requires moods[0].mood == MoodRoutes.StoredMood(SubmitMood(mood, true).value)
    ensures NewestMoodAsWritten(moods, true) == Throws
  {
  }

  /** `fetchMoods` as intended: the callback gets the newest mood's name, read
      through the table the same way as the list shows it. */
  function NewestMood(moods: seq<MoodRoutes.MoodRecord>, hasCallback: bool): (c: Callback)
    ensures moods == [] || !hasCallback <==> c == NoCall
    ensures c != NoCall ==> c.Call? && IsMoodName(c.name) && c.name == ShownNames(moods)[0]
  {
    if moods == [] || !hasCallback then NoCall else Call(Decode(moods[0].mood))
  }

  /** As intended, a listing whose newest mood is a submitted known name other
      than "anxious" reports that name in lower case. */
  lemma SubmittedMoodReported(moods: seq<MoodRoutes.MoodRecord>, mood: string)
    requires IsMoodName(Lower(mood)) && Lower(mood) != "anxious" && moods != []
    requires moods[0].mood == MoodRoutes.StoredMood(SubmitMood(mood, true).value)
    ensures NewestMood(moods, true) == Call(Lower(mood))
  {
    SubmittedMoodShown(mood);
  }
}
