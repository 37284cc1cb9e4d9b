/** Backend/routes/roadmap.js: the global roadmap steps merged with one user's
    `roadmapProgress` (GET), and the upsert of one progress entry (PUT). */
module RoadmapRoutes {
  import opened Common

  type UserId = string
  type StepId = string

  /** A global roadmap step (Backend/models/RoadmapStep.js). */
  datatype Step = Step(id: StepId, step: string)

  /** One entry of a user's `roadmapProgress` (Backend/models/User.js). */
  datatype Progress = Progress(stepId: StepId, completed: bool)

  /** The part of a user record the roadmap reads and writes. */
  datatype User = User(progress: seq<Progress>)

  type Users = map<UserId, User>

  /** A step as GET returns it: the step's fields plus this user's `completed`. */
  datatype MergedStep = MergedStep(id: StepId, step: string, completed: bool)

  /** The PUT reply body. */
  datatype Ack = Ack(stepId: StepId, completed: bool)

  datatype PutResponse = PutResponse(users: Users, reply: Reply<Ack>)

  const UserNotFoundMessage: string := "User not found"
  const UpdateFailedMessage: string := "Failed to update roadmap step"

  /** Index of the first progress entry for `id` (`Array.prototype.find`), or |ps|. */
  function FirstEntry(ps: seq<Progress>, id: StepId): (k: nat)
    ensures k <= |ps|
    ensures k < |ps| ==> ps[k].stepId == id
    ensures forall j | 0 <= j < k :: ps[j].stepId != id
  {
    if ps == [] then 0
    else if ps[0].stepId == id then 0
    else 1 + FirstEntry(ps[1..], id)
  }

  /** Whether the user has completed `id`: the first matching entry's flag, false without one. */
  function CompletedFlag(ps: seq<Progress>, id: StepId): (r: bool)
    ensures (forall p | p in ps :: p.stepId != id) ==> !r
    ensures forall j | 0 <= j < |ps| && ps[j].stepId == id && (forall i | 0 <= i < j :: ps[i].stepId != id) ::
      r == ps[j].completed
  {
    var k := FirstEntry(ps, id);
    if k < |ps| then ps[k].completed else false
  }

  /** The steps, in order, each with the user's completion flag. */
  function Merge(steps: seq<Step>, ps: seq<Progress>): (r: seq<MergedStep>)
    ensures |r| == |steps|
    ensures forall i | 0 <= i < |steps| ::
      r[i].id == steps[i].id && r[i].step == steps[i].step && r[i].completed == CompletedFlag(ps, steps[i].id)
  {
    seq(|steps|, i requires 0 <= i < |steps| =>
      MergedStep(steps[i].id, steps[i].step, CompletedFlag(ps, steps[i].id)))
  }

  /** `GET /`: 404 for an unknown user, otherwise every step with the user's completion flag. */
  function GetRoadmap(steps: seq<Step>, users: Users, uid: UserId): (r: Reply<seq<MergedStep>>)
    ensures uid !in users <==> r == Error(NotFoundStatus, UserNotFoundMessage)
    ensures r.Ok? ==> |r.value| == |steps|
    ensures r.Ok? ==> forall i | 0 <= i < |steps| ::
      r.value[i].id == steps[i].id && r.value[i].step == steps[i].step
      && r.value[i].completed == CompletedFlag(users[uid].progress, steps[i].id)
  {
    if uid !in users then Error(NotFoundStatus, UserNotFoundMessage)
    else Ok(Merge(steps, users[uid].progress))
  }

  /** The progress list after writing `completed` for `id`: the first matching
      entry is overwritten in place, otherwise one entry is appended. */
  function Upsert(ps: seq<Progress>, id: StepId, completed: bool): (r: seq<Progress>)
    ensures FirstEntry(ps, id) < |ps| ==>
      |r| == |ps| && r[FirstEntry(ps, id)] == Progress(id, completed)
      && forall j | 0 <= j < |ps| && j != FirstEntry(ps, id) :: r[j] == ps[j]
    ensures FirstEntry(ps, id) == |ps| ==> r == ps + [Progress(id, completed)]
  {
    var k := FirstEntry(ps, id);
    if k < |ps| then ps[k := ps[k].(completed := completed)]
    else ps + [Progress(id, completed)]
  }

  /** `PUT /:id`. A failed `user.save()` is `saved = false`: the handler then
      answers 500 and nothing is stored. */
  function PutProgress(users: Users, uid: UserId, id: StepId, completed: bool, saved: bool): (r: PutResponse)
    ensures uid !in users <==> r == PutResponse(users, Error(NotFoundStatus, UserNotFoundMessage))
    ensures uid in users && !saved ==> r == PutResponse(users, Error(ServerError, UpdateFailedMessage))
    ensures uid in users && saved ==> r.reply == Ok(Ack(id, completed))
    ensures uid in users && saved ==> r.users.Keys == users.Keys && r.users[uid].progress == Upsert(users[uid].progress, id, completed)
    ensures forall u | u in users && u != uid :: u in r.users && r.users[u] == users[u]
  {
    if uid !in users then PutResponse(users, Error(NotFoundStatus, UserNotFoundMessage))
    else if !saved then PutResponse(users, Error(ServerError, UpdateFailedMessage))
    else PutResponse(users[uid := User(Upsert(users[uid].progress, id, completed))], Ok(Ack(id, completed)))
  }

  /** After a PUT, the merge reports the written value for that step and the
      previous value for every other step. */
  lemma MergeAfterPut(steps: seq<Step>, ps: seq<Progress>, id: StepId, completed: bool)
    ensures var merged := Merge(steps, Upsert(ps, id, completed));
            forall i | 0 <= i < |steps| ::
              merged[i].completed == (if steps[i].id == id then completed else CompletedFlag(ps, steps[i].id))
  {
    var ps' := Upsert(ps, id, completed);
    forall i | 0 <= i < |steps|
      ensures CompletedFlag(ps', steps[i].id) == (if steps[i].id == id then completed else CompletedFlag(ps, steps[i].id))
    {
      UpsertLookup(ps, id, completed, steps[i].id);
    }
  }

  /** Looking a step up after an upsert. */
  lemma {:induction false} UpsertLookup(ps: seq<Progress>, id: StepId, completed: bool, other: StepId)
    ensures CompletedFlag(Upsert(ps, id, completed), other) ==
      (if other == id then completed else CompletedFlag(ps, other))
  {
    var k := FirstEntry(ps, id);
    var ps' := Upsert(ps, id, completed);
    var m := FirstEntry(ps, other);
    if other == id {
      FirstEntryUnique(ps', id, k);
    } else {
      assert forall j | 0 <= j < |ps| :: ps'[j].stepId == ps[j].stepId;
      if m < |ps| {
        FirstEntryUnique(ps', other, m);
      } else {
        FirstEntryUnique(ps', other, |ps'|);
      }
    }
  }

  /** `FirstEntry` is characterised by its contract. */
  lemma {:induction false} FirstEntryUnique(ps: seq<Progress>, id: StepId, k: nat)
    requires k <= |ps|
    requires k < |ps| ==> ps[k].stepId == id
    requires forall j | 0 <= j < k :: ps[j].stepId != id
    ensures FirstEntry(ps, id) == k
  {
    if ps != [] && k > 0 {
      FirstEntryUnique(ps[1..], id, k - 1);
    }
  }

  /** A repeated PUT with the same value changes nothing. */
  lemma PutIdempotent(users: Users, uid: UserId, id: StepId, completed: bool, saved: bool)
    ensures var once := PutProgress(users, uid, id, completed, saved);
            PutProgress(once.users, uid, id, completed, saved) == once
  {
    if uid in users && saved {
      var ps := users[uid].progress;
      var ps' := Upsert(ps, id, completed);
      var k := FirstEntry(ps, id);
      if k < |ps| {
        FirstEntryUnique(ps', id, k);
        assert Upsert(ps', id, completed) == ps';
      } else {
        FirstEntryUnique(ps', id, |ps|);
        assert Upsert(ps', id, completed) == ps';
      }
    }
  }
}
