/** Backend/routes/creative.js: saving a creative submission, listing the
    caller's submissions newest first, and the prompt table with its neutral
    fallback. */
module CreativeRoutes {
  import opened Common
  import opened Lists
  import opened Sorting

  type UserId = string

  /** A stored submission (Backend/models/CreativeContent.js); `createdAt` in milliseconds. */
  datatype Content = Content(userId: UserId, contentType: string, contentData: string,
                             moodAtSubmission: Option<string>, createdAt: int)

  const SaveFailedMessage: string := "Failed to save creative content"

  const HappyPrompt: string := "Write a joyful poem about your day."
  const SadPrompt: string := "Create comforting lyrics reflecting calmness."
  const NeutralPrompt: string := "Draw a simple sketch representing balance."

  /** `samplePrompts[mood]`: the table lookup, case-sensitive. */
  function SamplePrompt(mood: string): Option<string> {
    if mood == "happy" then Some(HappyPrompt)
    else if mood == "sad" then Some(SadPrompt)
    else if mood == "neutral" then Some(NeutralPrompt)
    else None
  }

  /** `GET /prompt`: a missing or empty mood reads as "neutral"; a mood outside
      the table gets the neutral prompt. */
  function PromptFor(mood: Option<string>): (p: string)
    ensures p == HappyPrompt || p == SadPrompt || p == NeutralPrompt
    ensures mood.None? || mood.value == "" ==> p == NeutralPrompt
    ensures mood == Some("happy") ==> p == HappyPrompt
    ensures mood == Some("sad") ==> p == SadPrompt
    ensures mood.Some? && mood.value !in {"happy", "sad"} ==> p == NeutralPrompt
  {
    var key := if mood.None? || mood.value == "" then "neutral" else mood.value;
    SamplePrompt(key).GetOr(NeutralPrompt)
  }

  /** `POST /`: the submission is stored with the caller's id and the time of saving. */
  function Submit(contents: seq<Content>, uid: UserId, contentType: string, contentData: string,
                  mood: Option<string>, now: int, saved: bool): (r: (seq<Content>, Reply<Content>))
    ensures saved ==> r.1.Ok? && r.0 == contents + [r.1.value]
    ensures saved ==> r.1.value == Content(uid, contentType, contentData, mood, now)
    ensures !saved ==> r == (contents, Error(ServerError, SaveFailedMessage))
  {
    if saved then
      var c := Content(uid, contentType, contentData, mood, now);
      (contents + [c], Ok(c))
    else (contents, Error(ServerError, SaveFailedMessage))
  }

  /** The sort key of `.sort({ createdAt: -1 })`: newest first. */
  function NewestFirst(c: Content): int {
    -c.createdAt
  }

  /** `GET /`: exactly the caller's submissions, each as often as stored, newest first. */
  function ListContent(contents: seq<Content>, uid: UserId): (r: seq<Content>)
    ensures forall c :: c in r <==> c in contents && c.userId == uid
    ensures forall c: Content | c.userId == uid :: multiset(r)[c] == multiset(contents)[c]
    ensures |r| == |Filter(contents, (c: Content) => c.userId == uid)|
    ensures forall i, j | 0 <= i < j < |r| :: r[i].createdAt >= r[j].createdAt
  {
    var mine := (c: Content) => c.userId == uid;
    var own := Filter(contents, mine);
    FilterCounts(contents, mine);
    var r := SortBy(own, NewestFirst);
    SortByPermutes(own, NewestFirst);
    NewestFirstDescends(r);
    forall c ensures c in r <==> c in own {
      SortKeepsMembers(own, NewestFirst, c);
    }
    r
  }

  /** Sorted on `NewestFirst`, creation times descend. */
  lemma NewestFirstDescends(r: seq<Content>)
    requires SortedBy(r, NewestFirst)
    ensures forall i, j | 0 <= i < j < |r| :: r[i].createdAt >= r[j].createdAt
  {
    forall i, j | 0 <= i < j < |r| ensures r[i].createdAt >= r[j].createdAt {
      assert NewestFirst(r[i]) <= NewestFirst(r[j]);
    }
  }

  /** A saved submission appears in its author's listing. */
  lemma SubmittedIsListed(contents: seq<Content>, uid: UserId, contentType: string, contentData: string,
                          mood: Option<string>, now: int)
    ensures var (after, reply) := Submit(contents, uid, contentType, contentData, mood, now, true);
            reply.value in ListContent(after, uid)
  {
  }
}
