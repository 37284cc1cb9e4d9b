/** Frontend/src/components/SupportCircle.js: the component's state and the
    handlers that change it. Each handler answers the next state together with
    the request it emits, if any; the outcome of an HTTP call is a parameter. */
module CircleClient {
  import opened Common
  import opened Text
  import opened Lists
  import CircleRoutes

  type UserId = CircleRoutes.UserId
  type CircleId = CircleRoutes.CircleId

  /** A circle as the list endpoint returns it. */
  datatype CircleView = CircleView(id: CircleId, name: string, members: seq<UserId>)

  /** A `newMessage` event. */
  datatype ChatMessage = ChatMessage(senderId: UserId, senderName: Option<string>, text: string, createdAt: int)

  /** The `supportCircleMessage` event the client emits. */
  datatype Outgoing = Outgoing(circleId: CircleId, senderId: UserId, text: string)

  /** The component state; `hasSocket` is `socket !== null`. */
  datatype State = State(
    userId: UserId,
    newCircleName: string,
    error: string,
    selected: Option<CircleView>,
    messages: seq<ChatMessage>,
    messageText: string,
    hasSocket: bool)

  const EmptyNameError: string := "Circle name cannot be empty."
  const CreateFailedError: string := "Failed to create support circle."

  /** `handleCreateCircle` up to its request: a blank name sets the error and
      posts nothing; otherwise the error is cleared and the name is posted as
      typed (untrimmed). */
  function StartCreate(s: State): (r: (State, Option<string>))
    ensures r.1.None? <==> IsBlank(s.newCircleName)
    ensures r.1.None? ==> r.0 == s.(error := EmptyNameError)
    ensures r.1.Some? ==> r.1.value == s.newCircleName && r.0 == s.(error := "")
  {
    if Trim(s.newCircleName) == [] then (s.(error := EmptyNameError), None)
    else (s.(error := ""), Some(s.newCircleName))
  }

  /** `handleCreateCircle` after the request settles: success clears the input,
      failure reports it. */
  function FinishCreate(s: State, ok: bool): (r: State)
    ensures ok ==> r == s.(newCircleName := "")
    ensures !ok ==> r == s.(error := CreateFailedError)
  {
    if ok then s.(newCircleName := "") else s.(error := CreateFailedError)
  }

  /** `handleSendMessage`: emits only with non-blank text, a socket and a selected
      circle; the payload carries the trimmed text and the input is cleared. */
  function Send(s: State): (r: (State, Option<Outgoing>))
    ensures r.1.Some? <==> !IsBlank(s.messageText) && s.hasSocket && s.selected.Some?
    ensures r.1.Some? ==> r.1.value.circleId == s.selected.value.id && r.1.value.senderId == s.userId
    ensures r.1.Some? ==> r.1.value.text == Trim(s.messageText) && r.1.value.text != []
    ensures r.1.Some? ==> r.0 == s.(messageText := "")
    ensures r.1.None? ==> r.0 == s
  {
    var text := Trim(s.messageText);
    if text != [] && s.hasSocket && s.selected.Some? then
      (s.(messageText := ""), Some(Outgoing(s.selected.value.id, s.userId, text)))
    else (s, None)
  }

  /** The text a send carries is already trimmed: the server receives it as
      it will be shown. */
  lemma SentTextIsTrimmed(s: State)
    requires Send(s).1.Some?
    ensures Trim(Send(s).1.value.text) == Send(s).1.value.text
  {
    TrimIdempotent(s.messageText);
  }

  /** The `newMessage` listener: the message goes to the end of the list. */
  function Receive(s: State, m: ChatMessage): (r: State)
    ensures r.messages == s.messages + [m]
    ensures r.(messages := s.messages) == s
  {
    s.(messages := s.messages + [m])
  }

  /** A run of `newMessage` events, handled one after another. */
  function ReceiveAll(s: State, ms: seq<ChatMessage>): State
    decreases |ms|
  {
    if ms == [] then s else ReceiveAll(Receive(s, ms[0]), ms[1..])
  }

  /** Messages are shown in arrival order after those already shown. */
  lemma {:induction false} ReceiveAllAppends(s: State, ms: seq<ChatMessage>)
    ensures ReceiveAll(s, ms).messages == s.messages + ms
    ensures ReceiveAll(s, ms).(messages := s.messages) == s
    decreases |ms|
  {
    if ms != [] {
      ReceiveAllAppends(Receive(s, ms[0]), ms[1..]);
      assert s.messages + [ms[0]] + ms[1..] == s.messages + ms;
    }
  }

  /** `handleJoinLeave` after the request succeeded: leaving the circle that is
      open deselects it (and the socket effect's cleanup empties the messages);
      anything else keeps the selection. */
  function JoinLeaveSucceeded(s: State, circleId: CircleId, wasMember: bool): (r: State)
    ensures wasMember && s.selected.Some? && s.selected.value.id == circleId ==>
      r.selected.None? && r.messages == []
    ensures !(wasMember && s.selected.Some? && s.selected.value.id == circleId) ==> r == s
    ensures r.(selected := s.selected, messages := s.messages) == s
  {
    if wasMember && s.selected.Some? && s.selected.value.id == circleId then
      s.(selected := None, messages := [])
    else s
  }

  /** Leaving the open circle closes its chat: nothing more can be sent and no
      message is shown. A join leaves what a send would emit unchanged. */
  lemma LeaveSelectedStopsSending(s: State, circleId: CircleId)
    ensures s.selected.Some? && s.selected.value.id == circleId ==>
      Send(JoinLeaveSucceeded(s, circleId, true)).1.None? && JoinLeaveSucceeded(s, circleId, true).messages == []
    ensures Send(JoinLeaveSucceeded(s, circleId, false)) == Send(s)
  {
  }

  /** `isUserMember`: the member list contains the user. */
  predicate IsUserMember(c: CircleView, userId: UserId) {
    userId in c.members
  }

  /** The list endpoint's view of a stored circle. */
  function ViewOf(id: CircleId, c: CircleRoutes.Circle): (v: CircleView)
    ensures v.members == c.members && v.id == id
  {
    CircleView(id, c.name, c.members)
  }

  /** After a join the client shows the user as a member, after a leave it does
      not, and the member count moves by at most one. */
  lemma MembershipSeenByClient(store: CircleRoutes.Store, id: CircleId, user: UserId, saved: bool)
    ensures var j := CircleRoutes.Join(store, id, user, saved);
            j.reply.Ok? ==> IsUserMember(ViewOf(id, j.reply.value), user)
    ensures var l := CircleRoutes.Leave(store, id, user, saved);
            l.reply.Ok? ==> !IsUserMember(ViewOf(id, l.reply.value), user)
  {
  }

  /** A create the guard lets through makes a private circle with the typed
      name, whose only member is the creator: the client lists it as joined,
      under "1 member". */
  lemma CreatedCircleShowsCreator(s: State, store: CircleRoutes.Store, id: CircleId, now: int)
    requires StartCreate(s).1.Some? && id !in store
    ensures var r := CircleRoutes.Create(store, id, s.userId, StartCreate(s).1.value, None, now, true);
            && r.reply.Ok? && r.reply.value.name == s.newCircleName && r.reply.value.isPrivate
            && IsUserMember(ViewOf(id, r.reply.value), s.userId)
            && MemberLabel(|ViewOf(id, r.reply.value).members|) == "1 member"
  {
  }

  /** The label under a circle's name: "1 member", otherwise "N members". */
  function MemberLabel(count: nat): (r: string)
    ensures count == 1 <==> r == "1 member"
    ensures count != 1 ==> r == NatToString(count) + " members"
  {
    NatToString(count) + " member" + (if count != 1 then "s" else "")
  }

  /** The label's number reads back as the member count. */
  lemma MemberLabelCount(count: nat)
    ensures var digits := NatToString(count);
            |MemberLabel(count)| > |digits| && ParseNumber(MemberLabel(count)[..|digits|]) == Some(count)
  {
    var digits := NatToString(count);
    assert MemberLabel(count)[..|digits|] == digits;
    ParseNumberOfNatToString(count);
  }
}
