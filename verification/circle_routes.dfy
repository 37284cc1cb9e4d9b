/** Backend/routes/supportCircle.js: creating, joining and leaving a support
    circle, as transitions on an in-memory circle store. A failed `save()` is the
    parameter `saved = false`; the handler then answers 500 and nothing is stored. */
module CircleRoutes {
  import opened Common
  import opened Lists

  type UserId = string
  type CircleId = string

  /** An entry of a circle's `messages` (Backend/models/SupportCircle.js). */
  datatype Message = Message(senderId: UserId, text: string, createdAt: int)

  /** A support circle record; `members` keeps the order users joined in. */
  datatype Circle = Circle(
    name: string,
    members: seq<UserId>,
    messages: seq<Message>,
    isPrivate: bool,
    createdAt: int)

  /** The collection of circles, by id. */
  type Store = map<CircleId, Circle>

  /** The store after a request, and the handler's reply. */
  datatype Response = Response(store: Store, reply: Reply<Circle>)

  const NotFoundMessage: string := "Circle not found"
  const CreateFailedMessage: string := "Failed to create circle"
  const JoinFailedMessage: string := "Failed to join circle"
  const LeaveFailedMessage: string := "Failed to leave circle"

  /** The fields a join or leave must not touch. */
  predicate SameExceptMembers(a: Circle, b: Circle) {
    a.name == b.name && a.messages == b.messages && a.isPrivate == b.isPrivate && a.createdAt == b.createdAt
  }

  /** Every circle's member list has set semantics. */
  ghost predicate MembersDistinct(store: Store) {
    forall id | id in store :: NoDuplicates(store[id].members)
  }

  /** `POST /`: a new circle under the fresh id `id`, with the creator as its only
      member; `isPrivate` defaults to true when the request leaves it out. */
  function Create(store: Store, id: CircleId, creator: UserId, name: string,
                  isPrivate: Option<bool>, now: int, saved: bool): (r: Response)
    requires id !in store
    ensures r.reply.Ok? <==> saved
    ensures r.reply.Ok? ==> r.store == store[id := r.reply.value]
    ensures r.reply.Ok? ==> r.reply.value.members == [creator] && r.reply.value.name == name
    ensures r.reply.Ok? ==> r.reply.value.messages == [] && r.reply.value.createdAt == now
    ensures r.reply.Ok? && isPrivate.Some? ==> r.reply.value.isPrivate == isPrivate.value
    ensures r.reply.Ok? && isPrivate.None? ==> r.reply.value.isPrivate
    ensures r.reply.Error? ==> r.store == store && r.reply == Error(ServerError, CreateFailedMessage)
  {
    var circle := Circle(name, [creator], [], isPrivate.GetOr(true), now);
    if saved then Response(store[id := circle], Ok(circle))
    else Response(store, Error(ServerError, CreateFailedMessage))
  }

  /** `POST /:id/join`: append the user unless already a member (then nothing is saved). */
  function Join(store: Store, id: CircleId, user: UserId, saved: bool): (r: Response)
    ensures id !in store ==> r == Response(store, Error(NotFoundStatus, NotFoundMessage))
    ensures r.reply.Error? ==> r.store == store
    ensures id in store && (saved || user in store[id].members) ==> r.reply.Ok?
    ensures id in store && user in store[id].members ==> r == Response(store, Ok(store[id]))
    ensures id in store && user !in store[id].members && !saved ==> r == Response(store, Error(ServerError, JoinFailedMessage))
    ensures r.reply.Ok? ==> id in store && r.store == store[id := r.reply.value]
    ensures r.reply.Ok? ==> user in r.reply.value.members && SameExceptMembers(r.reply.value, store[id])
    ensures r.reply.Ok? ==> |store[id].members| <= |r.reply.value.members| <= |store[id].members| + 1
    ensures r.reply.Ok? ==> r.reply.value.members[..|store[id].members|] == store[id].members
  {
    if id !in store then Response(store, Error(NotFoundStatus, NotFoundMessage))
    else
      var circle := store[id];
      if user in circle.members then Response(store, Ok(circle))
      else if !saved then Response(store, Error(ServerError, JoinFailedMessage))
      else
        var joined := circle.(members := circle.members + [user]);
        Response(store[id := joined], Ok(joined))
  }

  /** `POST /:id/leave`: drop every occurrence of the user; the save happens even
      when the user was not a member. */
  function Leave(store: Store, id: CircleId, user: UserId, saved: bool): (r: Response)
    ensures id !in store ==> r == Response(store, Error(NotFoundStatus, NotFoundMessage))
    ensures r.reply.Error? ==> r.store == store
    ensures id in store ==> (r.reply.Ok? <==> saved)
    ensures r.reply.Ok? ==> id in store && r.store == store[id := r.reply.value]
    ensures r.reply.Ok? ==> user !in r.reply.value.members && SameExceptMembers(r.reply.value, store[id])
    ensures r.reply.Ok? ==> IsSubsequence(r.reply.value.members, store[id].members)
    ensures r.reply.Ok? ==> forall u | u != user ::
      multiset(r.reply.value.members)[u] == multiset(store[id].members)[u]
    ensures r.reply.Ok? && user !in store[id].members ==> r.reply.value == store[id]
  {
    if id !in store then Response(store, Error(NotFoundStatus, NotFoundMessage))
    else if !saved then Response(store, Error(ServerError, LeaveFailedMessage))
    else
      var circle := store[id];
      var left := circle.(members := RemoveAll(circle.members, user));
      Response(store[id := left], Ok(left))
  }

  /** Joining twice is joining once: the second join changes nothing and answers
      the same circle, whether or not the store could save. */
  lemma JoinIdempotent(store: Store, id: CircleId, user: UserId, saved: bool, savedAgain: bool)
    requires Join(store, id, user, saved).reply.Ok?
    ensures Join(Join(store, id, user, saved).store, id, user, savedAgain) == Join(store, id, user, saved)
  {
  }

  /** A join or leave on one circle leaves every other circle as it was. */
  lemma MembershipFrame(store: Store, id: CircleId, other: CircleId, user: UserId, saved: bool)
    requires other != id && other in store
    ensures other in Join(store, id, user, saved).store && Join(store, id, user, saved).store[other] == store[other]
    ensures other in Leave(store, id, user, saved).store && Leave(store, id, user, saved).store[other] == store[other]
  {
  }

  /** Joining then leaving removes the user; for a user who was not a member it
      restores the member list exactly. */
  lemma JoinThenLeave(store: Store, id: CircleId, user: UserId)
    requires id in store
    ensures var joined := Join(store, id, user, true);
            var left := Leave(joined.store, id, user, true);
            && left.reply.Ok? && user !in left.reply.value.members
            && (user !in store[id].members ==> left.store == store)
  {
    var circle := store[id];
    var joined := Join(store, id, user, true);
    assert joined.reply.Ok? && id in joined.store;
    var left := Leave(joined.store, id, user, true);
    assert left.reply.Ok? && user !in left.reply.value.members;
    if user !in circle.members {
      assert joined.store[id].members == circle.members + [user];
      RemoveAllAppended(circle.members, user);
      assert left.reply.value.members == circle.members;
      assert left.reply.value == circle;
      assert left.store == store[id := circle];
      assert store[id := circle] == store;
    }
  }

  /** A created circle starts with a single member, so the store keeps set semantics. */
  lemma CreateKeepsDistinct(store: Store, id: CircleId, creator: UserId, name: string,
                            isPrivate: Option<bool>, now: int, saved: bool)
    requires MembersDistinct(store) && id !in store
    ensures MembersDistinct(Create(store, id, creator, name, isPrivate, now, saved).store)
  {
    var r := Create(store, id, creator, name, isPrivate, now, saved);
    if saved {
      assert r.store[id].members == [creator];
      assert NoDuplicates(r.store[id].members);
    }
  }

  /** Join appends only a user who is absent, so it keeps set semantics. */
  lemma JoinKeepsDistinct(store: Store, id: CircleId, user: UserId, saved: bool)
    requires MembersDistinct(store)
    ensures MembersDistinct(Join(store, id, user, saved).store)
  {
    var r := Join(store, id, user, saved);
    if id in store && saved && user !in store[id].members {
      var members := store[id].members;
      var joined := r.store[id].members;
      assert joined == members + [user];
      assert multiset(members)[user] == 0;
      forall x ensures multiset(joined)[x] <= 1 {
        assert multiset(joined)[x] == multiset(members)[x] + multiset([user])[x];
      }
    }
  }

  /** Leave only removes occurrences, so it keeps set semantics. */
  lemma LeaveKeepsDistinct(store: Store, id: CircleId, user: UserId, saved: bool)
    requires MembersDistinct(store)
    ensures MembersDistinct(Leave(store, id, user, saved).store)
  {
    var r := Leave(store, id, user, saved);
    if id in store && saved {
      var members := store[id].members;
      var left := r.store[id].members;
      forall x ensures multiset(left)[x] <= 1 {
        if x != user {
          assert multiset(left)[x] == multiset(members)[x];
        } else {
          assert x !in left;
        }
      }
    }
  }
}
