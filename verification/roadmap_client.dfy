/** Frontend/src/components/Roadmap.js: the roadmap cards, the optimistic
    completion toggle with its in-flight id list, and the per-step reminders. */
module RoadmapClient {
  import opened Common
  import opened Lists
  import RoadmapRoutes

  type StepId = RoadmapRoutes.StepId

  /** A card: one merged step as the server sent it; `id` is `_id`, possibly absent. */
  datatype StepView = StepView(id: Option<StepId>, step: string, completed: bool)

  /** The component state: the cards, the ids whose PUT is in flight, and the
      chosen reminder per step id. */
  datatype State = State(roadmap: seq<StepView>, updatingIds: seq<StepId>, reminders: map<StepId, string>)

  /** What a `toggleComplete` call remembers until its request settles: the index,
      the step id, and the flag before the flip. */
  datatype Pending = Pending(idx: nat, id: StepId, before: bool)

  /** The `PUT /api/roadmap/:id` body. */
  datatype PutRequest = PutRequest(id: StepId, completed: bool)

  /** The number of cards shown. */
  const MaxShown: nat := 10

  /** `!step || !step._id` fails: the card exists and has a non-empty id. */
  predicate HasId(v: StepView) {
    v.id.Some? && v.id.value != ""
  }

  /** `fetchRoadmap` settled: the first ten steps in server order, or no cards
      when the request failed. */
  function Loaded(s: State, fetched: Option<seq<StepView>>): (r: State)
    ensures fetched.None? ==> r.roadmap == []
    ensures fetched.Some? ==> |r.roadmap| <= MaxShown && |r.roadmap| <= |fetched.value| && r.roadmap == fetched.value[..|r.roadmap|]
    ensures fetched.Some? && |fetched.value| >= MaxShown ==> |r.roadmap| == MaxShown
    ensures fetched.Some? && |fetched.value| <= MaxShown ==> r.roadmap == fetched.value
    ensures r.(roadmap := s.roadmap) == s
  {
    match fetched
    case None => s.(roadmap := [])
    case Some(steps) => s.(roadmap := if |steps| <= MaxShown then steps else steps[..MaxShown])
  }

  /** `toggleComplete(idx)` up to its request: flip the card's flag, mark its id
      as updating, and send the flipped flag. An index without a card, or a card
      without an id, changes nothing and sends nothing. */
  function Toggle(s: State, idx: int): (r: (State, Option<Pending>))
    ensures r.1.None? <==> !(0 <= idx < |s.roadmap| && HasId(s.roadmap[idx]))
    ensures r.1.None? ==> r.0 == s
    ensures r.1.Some? ==> |r.0.roadmap| == |s.roadmap|
    ensures r.1.Some? ==> r.0.roadmap[idx] == s.roadmap[idx].(completed := !s.roadmap[idx].completed)
    ensures r.1.Some? ==> forall j | 0 <= j < |s.roadmap| && j != idx :: r.0.roadmap[j] == s.roadmap[j]
    ensures r.1.Some? ==> r.1.value == Pending(idx, s.roadmap[idx].id.value, s.roadmap[idx].completed)
    ensures r.1.Some? ==> r.0.updatingIds == s.updatingIds + [r.1.value.id]
    ensures r.0.reminders == s.reminders
  {
    if !(0 <= idx < |s.roadmap|) || !HasId(s.roadmap[idx]) then (s, None)
    else
      var step := s.roadmap[idx];
      var flipped := s.roadmap[idx := step.(completed := !step.completed)];
      (s.(roadmap := flipped, updatingIds := s.updatingIds + [step.id.value]),
       Some(Pending(idx, step.id.value, step.completed)))
  }

  /** The request a toggle sends: the flipped flag. */
  function RequestOf(p: Pending): (q: PutRequest)
    ensures q.id == p.id && q.completed != p.before
  {
    PutRequest(p.id, !p.before)
  }

  /** The checkbox of card `idx` is disabled while its id is updating. */
  predicate Disabled(s: State, idx: nat)
    requires idx < |s.roadmap|
  {
    s.roadmap[idx].id.Some? && s.roadmap[idx].id.value in s.updatingIds
  }

  /** While its request is in flight, a toggled card's checkbox is disabled. */
  lemma ToggleDisables(s: State, idx: int)
    requires Toggle(s, idx).1.Some?
    ensures 0 <= idx < |Toggle(s, idx).0.roadmap| && Disabled(Toggle(s, idx).0, idx)
  {
  }

  /** The `.catch`/`.finally` of `toggleComplete` AS WRITTEN. `newRoadmap` is a
      shallow copy, so `step` and `newRoadmap[idx]` are one object: the optimistic
      flip already changed `step.completed`, and the "revert" assigns that flipped
      flag to itself. The cards are left as they are; the id stops updating. */
  function SettleAsWritten(s: State, p: Pending, ok: bool): (r: State)
    ensures r.roadmap == s.roadmap
    ensures r.updatingIds == RemoveAll(s.updatingIds, p.id)
  {
    var roadmap :=
      if ok || p.idx >= |s.roadmap| then s.roadmap
      else
        var stepNow := s.roadmap[p.idx].completed;
        s.roadmap[p.idx := s.roadmap[p.idx].(completed := stepNow)];
    s.(roadmap := roadmap, updatingIds := RemoveAll(s.updatingIds, p.id))
  }

  /** A failed request, as written, leaves the card showing the flipped flag:
      the revert the code intends does not happen. */
  lemma FailedToggleKeepsFlip(s: State, idx: int)
    requires Toggle(s, idx).1.Some?
    ensures var (t, p) := Toggle(s, idx);
            var after := SettleAsWritten(t, p.value, false);
            0 <= idx < |after.roadmap| && after.roadmap[idx].completed != s.roadmap[idx].completed
  {
  }

  /** The `.catch`/`.finally` of `toggleComplete` as intended: on failure the
      card gets back the flag it had before the toggle; the id stops updating
      and every other id stays. */
  function Settle(s: State, p: Pending, ok: bool): (r: State)
    ensures |r.roadmap| == |s.roadmap|
    ensures ok || p.idx >= |s.roadmap| ==> r.roadmap == s.roadmap
    ensures !ok && p.idx < |s.roadmap| ==>
      r.roadmap == s.roadmap[p.idx := s.roadmap[p.idx].(completed := p.before)]
    ensures p.id !in r.updatingIds
    ensures forall id | id != p.id :: multiset(r.updatingIds)[id] == multiset(s.updatingIds)[id]
    ensures r.reminders == s.reminders
  {
    var roadmap :=
      if ok || p.idx >= |s.roadmap| then s.roadmap
      else s.roadmap[p.idx := s.roadmap[p.idx].(completed := p.before)];
    s.(roadmap := roadmap, updatingIds := RemoveAll(s.updatingIds, p.id))
  }

  /** A toggle whose request fails ends where it started: the cards are as before,
      and so is the updating list when the id was not already in it. */
  lemma FailedToggleRestores(s: State, idx: int)
    requires Toggle(s, idx).1.Some?
    ensures var (t, p) := Toggle(s, idx);
            var after := Settle(t, p.value, false);
            after.roadmap == s.roadmap
            && (p.value.id !in s.updatingIds ==> after.updatingIds == s.updatingIds)
  {
    var (t, p) := Toggle(s, idx);
    if p.value.id !in s.updatingIds {
      RemoveAllAppended(s.updatingIds, p.value.id);
    }
  }

  /** A toggle whose request succeeds keeps the flipped flag. */
  lemma SucceededToggleKeepsFlip(s: State, idx: int)
    requires Toggle(s, idx).1.Some?
    ensures var (t, p) := Toggle(s, idx);
            var after := Settle(t, p.value, true);
            after.roadmap[idx].completed == !s.roadmap[idx].completed
  {
  }

  /** The flag the client shows after a successful toggle is the one the server
      then reports for that step. */
  lemma ToggleAgreesWithServer(s: State, idx: int, steps: seq<RoadmapRoutes.Step>,
                               users: RoadmapRoutes.Users, uid: RoadmapRoutes.UserId, k: nat)
    requires Toggle(s, idx).1.Some? && uid in users
    requires k < |steps| && steps[k].id == Toggle(s, idx).1.value.id
    ensures var (t, p) := Toggle(s, idx);
            var put := RoadmapRoutes.PutProgress(users, uid, RequestOf(p.value).id, RequestOf(p.value).completed, true);
            var merged := RoadmapRoutes.GetRoadmap(steps, put.users, uid);
            merged.Ok? && merged.value[k].completed == t.roadmap[idx].completed
  {
    var (t, p) := Toggle(s, idx);
    var q := RequestOf(p.value);
    RoadmapRoutes.MergeAfterPut(steps, users[uid].progress, q.id, q.completed);
  }

  /** As written, a PUT the server fails to save leaves the card disagreeing
      with the server: the server still holds the old flag, the card the flipped one. */
  lemma FailedPutDisagreesAsWritten(s: State, idx: int, steps: seq<RoadmapRoutes.Step>,
                                    users: RoadmapRoutes.Users, uid: RoadmapRoutes.UserId, k: nat)
    requires Toggle(s, idx).1.Some? && uid in users
    requires k < |steps| && steps[k].id == Toggle(s, idx).1.value.id
    requires RoadmapRoutes.CompletedFlag(users[uid].progress, steps[k].id) == s.roadmap[idx].completed
    ensures var (t, p) := Toggle(s, idx);
            var put := RoadmapRoutes.PutProgress(users, uid, RequestOf(p.value).id, RequestOf(p.value).completed, false);
            var after := SettleAsWritten(t, p.value, put.reply.Ok?);
            var merged := RoadmapRoutes.GetRoadmap(steps, put.users, uid);
            put.reply.Error? && merged.Ok? && after.roadmap[idx].completed != merged.value[k].completed
  {
  }

  /** As intended, after a PUT the server fails to save, the card shows the
      flag the server still holds. */
  lemma FailedPutAgrees(s: State, idx: int, steps: seq<RoadmapRoutes.Step>,
                        users: RoadmapRoutes.Users, uid: RoadmapRoutes.UserId, k: nat)
    requires Toggle(s, idx).1.Some? && uid in users
    requires k < |steps| && steps[k].id == Toggle(s, idx).1.value.id
    requires RoadmapRoutes.CompletedFlag(users[uid].progress, steps[k].id) == s.roadmap[idx].completed
    ensures var (t, p) := Toggle(s, idx);
            var put := RoadmapRoutes.PutProgress(users, uid, RequestOf(p.value).id, RequestOf(p.value).completed, false);
            var after := Settle(t, p.value, put.reply.Ok?);
            var merged := RoadmapRoutes.GetRoadmap(steps, put.users, uid);
            put.users == users && merged.Ok? && after.roadmap[idx].completed == merged.value[k].completed
  {
  }

  /** `handleReminderChange`: the step's reminder becomes `time`; every other
      step's reminder stays. */
  function SetReminder(s: State, id: StepId, time: string): (r: State)
    ensures id in r.reminders && r.reminders[id] == time
    ensures r.reminders.Keys == s.reminders.Keys + {id}
    ensures forall other | other in s.reminders && other != id :: r.reminders[other] == s.reminders[other]
    ensures r.(reminders := s.reminders) == s
  {
    s.(reminders := s.reminders[id := time])
  }

  /** Reminders are last-write-wins: setting a step's reminder twice keeps the second time. */
  lemma SetReminderLastWins(s: State, id: StepId, first: string, second: string)
    ensures SetReminder(SetReminder(s, id, first), id, second) == SetReminder(s, id, second)
  {
  }
}
