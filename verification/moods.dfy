/** The mood table shared by Backend/routes/mood.js (name to number on POST)
    and Frontend/src/components/MoodTracker.js (the same table, read both ways).
    Two names share the value 2, so decoding cannot always recover the name. */
module Moods {
  import opened Common
  import opened Text

  /** A stored `mood`: a number, or a string the server kept as sent. */
  datatype MoodValue = Num(n: int) | Str(s: string)

  /** The mood names and their numbers, in the order the table declares them. */
  const MoodTable: seq<(string, int)> :=
    [("happy", 5), ("neutral", 3), ("sad", 1), ("angry", 2), ("calm", 4), ("anxious", 2)]

  /** The names of the table. */
  predicate IsMoodName(name: string) {
    exists i | 0 <= i < |MoodTable| :: MoodTable[i].0 == name
  }

  /** The value of the first entry named `key` (`moodMap[key]`), if any. */
  function LookupFrom(i: nat, key: string): (r: Option<int>)
    requires i <= |MoodTable|
    ensures r.Some? <==> exists j | i <= j < |MoodTable| :: MoodTable[j].0 == key
    ensures r.Some? ==> exists j | i <= j < |MoodTable| :: MoodTable[j] == (key, r.value)
    decreases |MoodTable| - i
  {
    if i == |MoodTable| then None
    else if MoodTable[i].0 == key then Some(MoodTable[i].1)
    else LookupFrom(i + 1, key)
  }

  /** The number stored for a mood name: the table value of the lower-cased
      name, 0 for a name not in the table. */
  function Encode(name: string): (v: int)
    ensures 0 <= v <= 5
    ensures v == 0 <==> !IsMoodName(Lower(name))
    ensures v != 0 ==> exists i | 0 <= i < |MoodTable| :: MoodTable[i] == (Lower(name), v)
  {
    LookupFrom(0, Lower(name)).GetOr(0)
  }

  /** `Number(v)`: a number is itself; a string is read as a decimal number,
      `None` standing for NaN. */
  function NumberOf(v: MoodValue): Option<int> {
    match v
    case Num(n) => Some(n)
    case Str(s) => ParseNumber(s)
  }

  /** The first table name whose value is `n`, from entry `i` on. */
  function FindName(i: nat, n: int): (r: Option<string>)
    requires i <= |MoodTable|
    ensures r.Some? ==> exists j | i <= j < |MoodTable| :: MoodTable[j] == (r.value, n)
    ensures r.None? <==> forall j | i <= j < |MoodTable| :: MoodTable[j].1 != n
    decreases |MoodTable| - i
  {
    if i == |MoodTable| then None
    else if MoodTable[i].1 == n then Some(MoodTable[i].0)
    else FindName(i + 1, n)
  }

  /** `getMoodString(num)`: the first name in declaration order whose value
      equals `Number(num)`, "neutral" when none does. */
  function Decode(v: MoodValue): (name: string)
    ensures IsMoodName(name)
  {
    var n := NumberOf(v);
    var found := if n.Some? then FindName(0, n.value) else None;
    assert IsMoodName("neutral") by { assert MoodTable[1].0 == "neutral"; }
    found.GetOr("neutral")
  }

  /** `LookupFrom` finds the first entry with the key. */
  lemma {:induction false} LookupAt(i: nat, j: nat, key: string)
    requires i <= j < |MoodTable| && MoodTable[j].0 == key
    requires forall m | i <= m < j :: MoodTable[m].0 != key
    ensures LookupFrom(i, key) == Some(MoodTable[j].1)
    decreases j - i
  {
    if i < j {
      LookupAt(i + 1, j, key);
    }
  }

  /** Each table name encodes to its own entry's value. */
  lemma EncodeEntry(j: nat)
    requires j < |MoodTable|
    ensures Encode(MoodTable[j].0) == MoodTable[j].1
  {
    var name := MoodTable[j].0;
    assert IsMoodName(name);
    NamesAreLowerCase(name);
    LookupAt(0, j, name);
  }

  /** The table's fixed values: happy 5, calm 4, neutral 3, angry and anxious 2, sad 1. */
  lemma EncodeTable()
    ensures Encode("happy") == 5 && Encode("calm") == 4 && Encode("neutral") == 3
    ensures Encode("angry") == 2 && Encode("anxious") == 2 && Encode("sad") == 1
  {
    EncodeEntry(0);
    EncodeEntry(1);
    EncodeEntry(2);
    EncodeEntry(3);
    EncodeEntry(4);
    EncodeEntry(5);
  }

  /** `FindName` finds the first entry with the value. */
  lemma {:induction false} FindAt(i: nat, j: nat, n: int)
    requires i <= j < |MoodTable| && MoodTable[j].1 == n
    requires forall m | i <= m < j :: MoodTable[m].1 != n
    ensures FindName(i, n) == Some(MoodTable[j].0)
    decreases j - i
  {
    if i < j {
      FindAt(i + 1, j, n);
    }
  }

  /** Encoding ignores letter case: an already lower-cased name encodes alike. */
  lemma EncodeIgnoresCase(name: string)
    ensures Encode(Lower(name)) == Encode(name)
  {
    LowerIdempotent(name);
  }

  /** Decoding the value of every name but "anxious" gives the name back. */
  lemma DecodeEncodeRoundTrip(name: string)
    requires IsMoodName(name) && name != "anxious"
    ensures Decode(Num(Encode(name))) == name
  {
    var j :| 0 <= j < |MoodTable| && MoodTable[j].0 == name;
    assert j < 5;
    EncodeEntry(j);
    FindAt(0, j, MoodTable[j].1);
  }

  /** "anxious" shares 2 with "angry", which is declared first: it decodes as "angry". */
  lemma AnxiousDecodesAsAngry()
    ensures Encode("anxious") == Encode("angry") == 2
    ensures Decode(Num(Encode("anxious"))) == "angry"
  {
    EncodeEntry(3);
    EncodeEntry(5);
    FindAt(0, 3, 2);
  }

  /** Numbers outside 1..5 decode to "neutral". */
  lemma DecodeOutOfRange(n: int)
    requires n < 1 || n > 5
    ensures Decode(Num(n)) == "neutral"
  {
    assert FindName(0, n).None?;
  }

  /** Encoding after decoding gives back every table value: the decoded name may
      differ from the one that was encoded, but it always carries the same value. */
  lemma EncodeDecode(n: int)
    requires 1 <= n <= 5
    ensures Encode(Decode(Num(n))) == n
  {
    var name := Decode(Num(n));
    var found := FindName(0, n);
    assert found.Some? by {
      assert MoodTable[0].1 == 5 && MoodTable[1].1 == 3 && MoodTable[2].1 == 1;
      assert MoodTable[3].1 == 2 && MoodTable[4].1 == 4;
    }
    assert name == found.value;
    NamesAreLowerCase(name);
    NamesHaveOneValue(name, n);
  }

  /** Table names are already lower case. */
  lemma NamesAreLowerCase(name: string)
    requires IsMoodName(name)
    ensures Lower(name) == name
  {
  }

  /** Every table name is listed with a single value. */
  lemma NamesHaveOneValue(name: string, n: int)
    requires exists j | 0 <= j < |MoodTable| :: MoodTable[j] == (name, n)
    ensures LookupFrom(0, name) == Some(n)
  {
  }
}
