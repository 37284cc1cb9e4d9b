/** Backend/routes/mood.js: adding a mood (a string is converted through the
    mood table), listing the caller's latest moods, and deleting all of them.
    The mood collection is a list of records in insertion order. */
module MoodRoutes {
  import opened Common
  import opened Lists
  import opened Sorting
  import opened Moods

  type UserId = string

  /** A stored mood; `date` is a timestamp in milliseconds. */
  datatype MoodRecord = MoodRecord(userId: UserId, mood: MoodValue, date: int)

  /** How many moods a listing returns at most. */
  const ListLimit: nat := 30

  const AddFailedMessage: string := "Failed to add mood"

  /** The mood value stored for a POST body's `mood`: a string goes through the
      table, any other value is kept unchanged. */
  function StoredMood(body: MoodValue): (v: MoodValue)
    ensures body.Str? ==> v.Num? && 0 <= v.n <= 5 && v.n == Encode(body.s)
    ensures body.Num? ==> v == body
  {
    match body
    case Str(s) => Num(Encode(s))
    case Num(_) => body
  }

  /** `POST /`: append the caller's mood. The body's `date` is used when it is
      truthy; a missing date or the timestamp 0 gives `now`. */
  function AddMood(records: seq<MoodRecord>, uid: UserId, body: MoodValue, date: Option<int>,
                   now: int, saved: bool): (r: (seq<MoodRecord>, Reply<MoodRecord>))
    ensures saved ==> r.1.Ok? && r.0 == records + [r.1.value]
    ensures saved ==> r.1.value.userId == uid && r.1.value.mood == StoredMood(body)
    ensures saved && date.Some? && date.value != 0 ==> r.1.value.date == date.value
    ensures saved && (date.None? || date.value == 0) ==> r.1.value.date == now
    ensures !saved ==> r == (records, Error(ServerError, AddFailedMessage))
  {
    var when := if date.Some? && date.value != 0 then date.value else now;
    var record := MoodRecord(uid, StoredMood(body), when);
    if saved then (records + [record], Ok(record)) else (records, Error(ServerError, AddFailedMessage))
  }

  /** The records of user `uid`, in insertion order (`find({ userId })`). */
  function MoodsOf(records: seq<MoodRecord>, uid: UserId): (r: seq<MoodRecord>)
    ensures forall m :: m in r <==> m in records && m.userId == uid
  {
    Filter(records, (m: MoodRecord) => m.userId == uid)
  }

  /** The sort key of `.sort({ date: -1 })`: newest first. */
  function NewestFirst(m: MoodRecord): int {
    -m.date
  }

  /** `GET /`: the caller's moods, newest first, at most thirty. */
  function ListMoods(records: seq<MoodRecord>, uid: UserId): (r: seq<MoodRecord>)
    ensures |r| <= ListLimit
    ensures forall m | m in r :: m.userId == uid && m in records
    ensures forall i, j | 0 <= i < j < |r| :: r[i].date >= r[j].date
    ensures |r| == if |MoodsOf(records, uid)| < ListLimit
                   then |MoodsOf(records, uid)| else ListLimit
    ensures multiset(r) <= multiset(MoodsOf(records, uid))
    ensures forall m | multiset(r)[m] < multiset(MoodsOf(records, uid))[m] ::
      forall k | 0 <= k < |r| :: m.date <= r[k].date
  {
    var mine := MoodsOf(records, uid);
    var sorted := SortBy(mine, NewestFirst);
    var n := if |sorted| < ListLimit then |sorted| else ListLimit;
    var r := sorted[..n];
    forall m | m in r ensures m.userId == uid && m in records {
      SortKeepsMembers(mine, NewestFirst, m);
    }
    PrefixHasSmallestCopies(sorted, NewestFirst, n);
    NewestFirstDescends(sorted, n);
    PrefixCounts(sorted, mine, n);
    r
  }

  /** A prefix of the sorted records holds no record more often than the records do. */
  lemma PrefixCounts(sorted: seq<MoodRecord>, mine: seq<MoodRecord>, n: nat)
    requires sorted == SortBy(mine, NewestFirst) && n <= |sorted|
    ensures multiset(sorted) == multiset(mine)
    ensures multiset(sorted[..n]) <= multiset(mine)
  {
    SortByPermutes(mine, NewestFirst);
    assert sorted == sorted[..n] + sorted[n..];
  }

  /** A prefix of records sorted on `NewestFirst` has descending dates. */
  lemma NewestFirstDescends(sorted: seq<MoodRecord>, n: nat)
    requires SortedBy(sorted, NewestFirst) && n <= |sorted|
    ensures forall i, j | 0 <= i < j < n :: sorted[..n][i].date >= sorted[..n][j].date
  {
    forall i, j | 0 <= i < j < n ensures sorted[..n][i].date >= sorted[..n][j].date {
      assert NewestFirst(sorted[i]) <= NewestFirst(sorted[j]);
    }
  }

  /** `DELETE /`: every record of the caller goes, every other record stays, in order. */
  function DeleteMoods(records: seq<MoodRecord>, uid: UserId): (r: seq<MoodRecord>)
    ensures forall m | m in r :: m.userId != uid
    ensures forall m: MoodRecord | m.userId != uid :: multiset(r)[m] == multiset(records)[m]
    ensures IsSubsequence(r, records)
  {
    var others := (m: MoodRecord) => m.userId != uid;
    FilterCounts(records, others);
    FilterIsSubsequence(records, others);
    Filter(records, others)
  }

  /** Deleting one user's moods leaves another user's listing as it was. */
  lemma DeleteKeepsOthersListing(records: seq<MoodRecord>, uid: UserId, other: UserId)
    requires other != uid
    ensures Filter(DeleteMoods(records, uid), (m: MoodRecord) => m.userId == other) == Filter(records, (m: MoodRecord) => m.userId == other)
  {
    var others := (m: MoodRecord) => m.userId != uid;
    assert DeleteMoods(records, uid) == Filter(records, others);
    FilterComposes(records, uid, other);
  }

  /** Filtering out one user, then keeping another, is keeping the other. */
  lemma {:induction false} FilterComposes(records: seq<MoodRecord>, uid: UserId, other: UserId)
    requires other != uid
    ensures Filter(Filter(records, (m: MoodRecord) => m.userId != uid), (m: MoodRecord) => m.userId == other)
         == Filter(records, (m: MoodRecord) => m.userId == other)
  {
    if records != [] {
      FilterComposes(records[1..], uid, other);
    }
  }

  /** A saved mood belongs to its author, and deleting the author's moods
      afterwards leaves what deleting them before would have left. */
  lemma {:induction false} AddThenDelete(records: seq<MoodRecord>, uid: UserId, body: MoodValue,
                                         date: Option<int>, now: int)
    ensures var (after, reply) := AddMood(records, uid, body, date, now, true);
            reply.value in MoodsOf(after, uid)
            && DeleteMoods(after, uid) == DeleteMoods(records, uid)
  {
    var (after, reply) := AddMood(records, uid, body, date, now, true);
    var others := (m: MoodRecord) => m.userId != uid;
    FilterAppend(records, reply.value, others);
    assert DeleteMoods(after, uid) == Filter(after, others);
    assert DeleteMoods(records, uid) == Filter(records, others);
  }
}
