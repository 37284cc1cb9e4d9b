/** Frontend/src/components/InsightReports.js: each stored mood gets a label,
    the labels are counted, and the longest run of equal consecutive labels is
    the "streak" the page reports. */
module Insights {
  import opened Common
  import opened Text
  import opened Moods

  /** A mood's label: a name, or `undefined` for a number outside the table. */
  datatype Label = Named(name: string) | Undefined

  /** The capitalised label of each mood number 1..5, as the insights page names them. */
  function NumberToMood(n: int): (name: string)
    requires 1 <= n <= 5
  {
    if n == 5 then "Happy"
    else if n == 4 then "Calm"
    else if n == 3 then "Neutral"
    else if n == 2 then "Angry"
    else "Sad"
  }

  /** The label of a stored mood: a number is looked up in `numberToMood`; a
      string is looked up by its numeric value, and otherwise shown with its
      first letter upper-cased. */
  function LabelOf(v: MoodValue): (l: Label)
    ensures v.Num? && 1 <= v.n <= 5 ==> l == Named(NumberToMood(v.n))
    ensures v.Num? && !(1 <= v.n <= 5) ==> l == Undefined
    ensures v.Str? ==> l.Named?
    ensures v.Str? && ParseNumber(v.s).Some? && 1 <= ParseNumber(v.s).value <= 5 ==>
      l == Named(NumberToMood(ParseNumber(v.s).value))
    ensures v.Str? && !(ParseNumber(v.s).Some? && 1 <= ParseNumber(v.s).value <= 5) ==>
      l == Named(Capitalize(v.s))
  {
    match v
    case Num(n) => if 1 <= n <= 5 then Named(NumberToMood(n)) else Undefined
    case Str(s) =>
      var k := ParseNumber(s);
      if k.Some? && 1 <= k.value <= 5 then Named(NumberToMood(k.value)) else Named(Capitalize(s))
  }

  /** The property name `acc[moodKey]` uses: `undefined` becomes "undefined". */
  function KeyOf(l: Label): string {
    match l
    case Named(name) => name
    case Undefined => "undefined"
  }

  /** The count table `counts`: one entry per key, in first-occurrence order. */
  type Counts = seq<(string, nat)>

  /** Keys occur at most once. */
  predicate DistinctKeys(c: Counts) {
    forall i, j | 0 <= i < j < |c| :: c[i].0 != c[j].0
  }

  /** The sum of the counts. */
  function Total(c: Counts): nat {
    if c == [] then 0 else Total(c[..|c| - 1]) + c[|c| - 1].1
  }

  /** How often `k` occurs in `keys`. */
  function Occurrences(keys: seq<string>, k: string): nat {
    multiset(keys)[k]
  }

  /** The entry of `key`, or -1 when the table has none. */
  function IndexOfKey(c: Counts, key: string): (i: int)
    ensures -1 <= i < |c|
    ensures i >= 0 ==> c[i].0 == key
    ensures i == -1 <==> forall j | 0 <= j < |c| :: c[j].0 != key
    decreases |c|
  {
    if c == [] then -1
    else if c[|c| - 1].0 == key then |c| - 1
    else IndexOfKey(c[..|c| - 1], key)
  }

  /** One more occurrence of `key`: its count goes up by one, starting from 0 for a key not yet counted. */
  function Bump(c: Counts, key: string): (r: Counts)
    requires DistinctKeys(c)
    ensures DistinctKeys(r)
  {
    var i := IndexOfKey(c, key);
    if i >= 0 then c[i := (key, c[i].1 + 1)] else c + [(key, 1)]
  }

  /** `moods.reduce(...)`: the count table of the labels' keys. */
  function Tally(keys: seq<string>): (c: Counts)
    ensures DistinctKeys(c)
    decreases |keys|
  {
    if keys == [] then [] else Bump(Tally(keys[..|keys| - 1]), keys[|keys| - 1])
  }

  /** The count of `k` in a table, 0 when it has no entry. */
  function CountOf(c: Counts, k: string): nat {
    if c == [] then 0
    else if c[|c| - 1].0 == k then c[|c| - 1].1
    else CountOf(c[..|c| - 1], k)
  }

  /** Every key's count is the number of moods carrying it. */
  lemma {:induction false} TallyCounts(keys: seq<string>, k: string)
    ensures CountOf(Tally(keys), k) == Occurrences(keys, k)
    decreases |keys|
  {
    if keys != [] {
      var n := |keys| - 1;
      TallyCounts(keys[..n], k);
      assert keys == keys[..n] + [keys[n]];
      BumpCount(Tally(keys[..n]), keys[n], k);
    }
  }

  /** The counts sum to the number of moods. */
  lemma {:induction false} TallyTotal(keys: seq<string>)
    ensures Total(Tally(keys)) == |keys|
    decreases |keys|
  {
    if keys != [] {
      var n := |keys| - 1;
      TallyTotal(keys[..n]);
      BumpTotal(Tally(keys[..n]), keys[n]);
    }
  }

  /** Bumping a key raises its count by one and leaves every other count. */
  lemma BumpCount(c: Counts, key: string, k: string)
    requires DistinctKeys(c)
    ensures CountOf(Bump(c, key), k) == CountOf(c, k) + (if k == key then 1 else 0)
  {
    var i := IndexOfKey(c, key);
    if i >= 0 {
      CountOfUpdate(c, i, c[i].1 + 1, k);
      CountOfAt(c, i);
    } else {
      var r := c + [(key, 1)];
      assert r[..|r| - 1] == c;
      CountOfAbsent(c, key);
    }
  }

  /** A key with an entry counts that entry's number. */
  lemma {:induction false} CountOfAt(c: Counts, i: nat)
    requires DistinctKeys(c) && i < |c|
    ensures CountOf(c, c[i].0) == c[i].1
    decreases |c|
  {
    var n := |c| - 1;
    if i < n {
      assert c[n].0 != c[i].0;
      CountOfAt(c[..n], i);
    }
  }

  /** A key without an entry counts 0. */
  lemma {:induction false} CountOfAbsent(c: Counts, k: string)
    requires forall i | 0 <= i < |c| :: c[i].0 != k
    ensures CountOf(c, k) == 0
    decreases |c|
  {
    if c != [] {
      CountOfAbsent(c[..|c| - 1], k);
    }
  }

  /** Bumping a key raises the total by one. */
  lemma BumpTotal(c: Counts, key: string)
    requires DistinctKeys(c)
    ensures Total(Bump(c, key)) == Total(c) + 1
  {
    var i := IndexOfKey(c, key);
    if i >= 0 {
      var v := c[i].1 + 1;
      assert Bump(c, key) == c[i := (c[i].0, v)];
      TotalUpdate(c, i, v);
    } else {
      assert Bump(c, key) == c + [(key, 1)];
      TotalAppend(c, (key, 1));
    }
  }

  /** Appending an entry adds its count to the total. */
  lemma TotalAppend(c: Counts, e: (string, nat))
    ensures Total(c + [e]) == Total(c) + e.1
  {
    assert (c + [e])[..|c|] == c;
  }

  /** Overwriting the count at entry `i` of a table with distinct keys. */
  lemma {:induction false} CountOfUpdate(c: Counts, i: nat, v: nat, k: string)
    requires DistinctKeys(c) && i < |c|
    ensures CountOf(c[i := (c[i].0, v)], k) == if k == c[i].0 then v else CountOf(c, k)
    decreases |c|
  {
    var r := c[i := (c[i].0, v)];
    var n := |c| - 1;
    if i < n {
      assert r[..n] == c[..n][i := (c[i].0, v)];
      CountOfUpdate(c[..n], i, v, k);
    } else {
      assert r[..n] == c[..n];
      if k == c[i].0 {
      } else {
        assert r[n].0 != k;
      }
    }
  }

  /** Overwriting the count at entry `i` changes the total by the difference. */
  lemma {:induction false} TotalUpdate(c: Counts, i: nat, v: nat)
    requires i < |c|
    ensures Total(c[i := (c[i].0, v)]) == Total(c) - c[i].1 + v
    decreases |c|
  {
    var r := c[i := (c[i].0, v)];
    var n := |c| - 1;
    if i < n {
      assert r[..n] == c[..n][i := (c[i].0, v)];
      TotalUpdate(c[..n], i, v);
    } else {
      assert r[..n] == c[..n];
    }
  }

  /** `ls[i..i+n]` is a run of `n` equal labels. */
  predicate RunAt(ls: seq<Label>, i: int, n: int) {
    0 <= i && 1 <= n && i + n <= |ls| && forall j | i <= j < i + n :: ls[j] == ls[i]
  }

  /** `count` is the length of the longest run of equal labels in `ls` and
      `longest` the label of the earliest run of that length; an empty list has
      no label and count 0. */
  ghost predicate IsLongestStreak(ls: seq<Label>, longest: Option<Label>, count: nat) {
    && (ls == [] <==> count == 0)
    && (ls == [] ==> longest == None)
    && (ls != [] ==> 1 <= count <= |ls| && longest.Some?)
    && (ls != [] ==> exists s | 0 <= s < |ls| ::
          RunAt(ls, s, count) && ls[s] == longest.value && forall i | 0 <= i < s :: !RunAt(ls, i, count))
    && (forall i, n | RunAt(ls, i, n) :: n <= count)
  }

  /** The streak loop over `moods.forEach`: the longest run of equal consecutive
      labels, its label, and, among runs of that length, the earliest one. */
  method LongestStreak(ls: seq<Label>) returns (longest: Option<Label>, count: nat)
    ensures IsLongestStreak(ls, longest, count)
  {
    longest, count := None, 0;
    var current: Option<Label> := None;
    var currentCount: nat := 0;
    var k := 0;
    ghost var best := 0;
    while k < |ls|
      invariant 0 <= k <= |ls|
      invariant k == 0 ==> current == None && currentCount == 0 && count == 0 && longest == None
      invariant k > 0 ==> current == Some(ls[k - 1]) && 1 <= currentCount <= k
      invariant k > 0 ==> RunAt(ls, k - currentCount, currentCount)
      invariant k > 0 && currentCount < k ==> ls[k - currentCount - 1] != ls[k - 1]
      invariant k > 0 ==> 1 <= count <= k && longest.Some? && currentCount <= count
      invariant k > 0 ==> 0 <= best && best + count <= k && RunAt(ls, best, count) && ls[best] == longest.value
      invariant k > 0 ==> forall i | 0 <= i < best :: !(RunAt(ls, i, count) && i + count <= k)
      invariant forall i, n | RunAt(ls, i, n) && i + n <= k :: n <= count
    {
      var name := ls[k];
      if current == Some(name) {
        currentCount := currentCount + 1;
      } else {
        current := Some(name);
        currentCount := 1;
      }
      RunExtends(ls, k, currentCount);
      if currentCount > count {
        EarliestLongest(ls, k, currentCount, count);
        count := currentCount;
        longest := current;
        best := k + 1 - currentCount;
      }
      RunsBounded(ls, k, currentCount, count);
      k := k + 1;
    }
  }

  /** The current run, extended by `ls[k]`, is a maximal run ending at `k`. */
  lemma RunExtends(ls: seq<Label>, k: int, c: int)
    requires 0 <= k < |ls| && 1 <= c <= k + 1
    requires c > 1 ==> RunAt(ls, k - c + 1, c - 1) && ls[k - 1] == ls[k]
    ensures RunAt(ls, k + 1 - c, c)
  {
  }

  /** A run longer than every run so far has no earlier run of its length. */
  lemma EarliestLongest(ls: seq<Label>, k: int, c: int, best: int)
    requires 0 <= k < |ls| && 1 <= c <= k + 1 && c > best
    requires RunAt(ls, k + 1 - c, c)
    requires c <= k ==> ls[k - c] != ls[k]
    requires forall i, n | RunAt(ls, i, n) && i + n <= k :: n <= best
    ensures forall i | 0 <= i < k + 1 - c :: !(RunAt(ls, i, c) && i + c <= k + 1)
  {
    forall i | 0 <= i < k + 1 - c ensures !(RunAt(ls, i, c) && i + c <= k + 1) {
    }
  }

  /** Every run inside `ls[..k+1]` is no longer than the best so far. */
  lemma RunsBounded(ls: seq<Label>, k: int, c: int, best: int)
    requires 0 <= k < |ls| && 1 <= c <= k + 1 && c <= best
    requires RunAt(ls, k + 1 - c, c)
    requires c <= k ==> ls[k - c] != ls[k]
    requires forall i, n | RunAt(ls, i, n) && i + n <= k :: n <= best
    ensures forall i, n | RunAt(ls, i, n) && i + n <= k + 1 :: n <= best
  {
    forall i, n | RunAt(ls, i, n) && i + n == k + 1 ensures n <= c {
    }
  }

  /** Two equal neighbouring labels make a streak longer than one, so the
      streak line is shown. */
  lemma RepeatShowsStreak(ls: seq<Label>, longest: Option<Label>, count: nat, i: nat)
    requires IsLongestStreak(ls, longest, count)
    requires i + 1 < |ls| && ls[i] == ls[i + 1]
    ensures count > 1
  {
    assert RunAt(ls, i, 2);
  }

  /** Without two equal neighbouring labels the longest streak is one mood. */
  lemma NoRepeatNoStreak(ls: seq<Label>, longest: Option<Label>, count: nat)
    requires IsLongestStreak(ls, longest, count) && ls != []
    requires forall i | 0 <= i < |ls| - 1 :: ls[i] != ls[i + 1]
    ensures count == 1 && longest == Some(ls[0])
  {
    var s :| 0 <= s < |ls| && RunAt(ls, s, count) && ls[s] == longest.value
              && forall i | 0 <= i < s :: !RunAt(ls, i, count);
    RunsOfOne(ls, s, count);
    assert RunAt(ls, 0, 1);
  }

  /** Without equal neighbours every run is a single label. */
  lemma RunsOfOne(ls: seq<Label>, i: int, n: int)
    requires forall j | 0 <= j < |ls| - 1 :: ls[j] != ls[j + 1]
    requires RunAt(ls, i, n)
    ensures n == 1
  {
    if i + 1 < |ls| {
      assert ls[i] != ls[i + 1];
    }
  }

  /** What the page shows: the empty state, or the counts and the streak line,
      the streak being announced only when it spans more than one mood. */
  datatype View =
    | EmptyState
    | Insights(counts: Counts, total: nat, longest: Option<Label>, count: nat, showStreak: bool)

  /** The rendered insights for a list of stored moods. */
  method Render(moods: seq<MoodValue>) returns (v: View)
    ensures moods == [] <==> v.EmptyState?
    ensures v.Insights? ==> v.total == |moods| && Total(v.counts) == |moods|
    ensures v.Insights? ==> forall k :: CountOf(v.counts, k) == Occurrences(KeysOf(moods), k)
    ensures v.Insights? ==> (v.showStreak <==> v.count > 1)
    ensures v.Insights? ==> IsLongestStreak(LabelsOf(moods), v.longest, v.count)
  {
    if moods == [] {
      return EmptyState;
    }
    var keys := KeysOf(moods);
    var counts := Tally(keys);
    TallyTotal(keys);
    forall k ensures CountOf(counts, k) == Occurrences(keys, k) {
      TallyCounts(keys, k);
    }
    var longest, count := LongestStreak(LabelsOf(moods));
    v := Insights(counts, |moods|, longest, count, count > 1);
  }

  /** The label of every mood, in order. */
  function LabelsOf(moods: seq<MoodValue>): (ls: seq<Label>)
    ensures |ls| == |moods|
    ensures forall i | 0 <= i < |moods| :: ls[i] == LabelOf(moods[i])
  {
    seq(|moods|, i requires 0 <= i < |moods| => LabelOf(moods[i]))
  }

  /** The count key of every mood, in order. */
  function KeysOf(moods: seq<MoodValue>): (keys: seq<string>)
    ensures |keys| == |moods|
    ensures forall i | 0 <= i < |moods| :: keys[i] == KeyOf(LabelOf(moods[i]))
  {
    seq(|moods|, i requires 0 <= i < |moods| => KeyOf(LabelOf(moods[i])))
  }

  /** The numbers the server stores for the table's names get the table's
      capitalised names back, except that "anxious" (stored as 2) reads "Angry". */
  lemma StoredNamesLabelled()
    ensures LabelOf(Num(Encode("happy"))) == Named("Happy")
    ensures LabelOf(Num(Encode("calm"))) == Named("Calm")
    ensures LabelOf(Num(Encode("neutral"))) == Named("Neutral")
    ensures LabelOf(Num(Encode("angry"))) == Named("Angry")
    ensures LabelOf(Num(Encode("anxious"))) == Named("Angry")
    ensures LabelOf(Num(Encode("sad"))) == Named("Sad")
  {
    EncodeTable();
  }

  /** An unknown name is stored as 0, which has no label. */
  lemma UnknownNameUnlabelled(name: string)
    requires !IsMoodName(Lower(name))
    ensures LabelOf(Num(Encode(name))) == Undefined
  {
  }
}
