/** The survey helpers of the web front end: the balanced sample of detections shown for
    feedback, and the two passes over the page's widget state. */
module FeedbackUtils {
  import opened Wrappers
  import opened Strings

  // ---- the detections and their categories

  /** One detection: its fields by name, among them `category`. */
  type Detection = map<string, string>

  /** A dictionary of detections: the keys in insertion order, and the entry of each key. */
  datatype Detections = Detections(keys: seq<string>, entries: map<string, Detection>)

  predicate WellFormed(d: Detections) {
    Distinct(d.keys) && (forall k :: k in d.entries ==> k in d.keys) && (forall k :: k in d.keys ==> k in d.entries)
  }

  /** Every detection has a `category` field. */
  predicate HasCategories(d: Detections) {
    forall k :: k in d.entries ==> "category" in d.entries[k]
  }

  /** The category of each key that has one. */
  function CategoryOf(d: Detections): (cat: map<string, string>)
    ensures forall k :: k in cat <==> k in d.entries && "category" in d.entries[k]
  {
    map k | k in d.entries && "category" in d.entries[k] :: d.entries[k]["category"]
  }

  /** The keys of `s` whose category is `c`, in the order of `s`. */
  function Select(s: seq<string>, cat: map<string, string>, c: string): seq<string> {
    if s == [] then []
    else
      var k := s[|s| - 1];
      Select(s[..|s| - 1], cat, c) + (if k in cat && cat[k] == c then [k] else [])
  }

  lemma {:induction false} SelectMembers(s: seq<string>, cat: map<string, string>, c: string)
    ensures forall k :: k in Select(s, cat, c) <==> k in s && k in cat && cat[k] == c
  {
    if s != [] {
      SelectMembers(s[..|s| - 1], cat, c);
      assert s == s[..|s| - 1] + [s[|s| - 1]];
    }
  }

  lemma {:induction false} SelectDistinct(s: seq<string>, cat: map<string, string>, c: string)
    requires Distinct(s)
    ensures Distinct(Select(s, cat, c))
  {
    if s != [] {
      var init, k := s[..|s| - 1], s[|s| - 1];
      SelectDistinct(init, cat, c);
      SelectMembers(init, cat, c);
      assert k !in init;
    }
  }

  lemma {:induction false} SelectAppend(a: seq<string>, b: seq<string>, cat: map<string, string>, c: string)
    ensures Select(a + b, cat, c) == Select(a, cat, c) + Select(b, cat, c)
    decreases |b|
  {
    if b == [] {
      assert a + b == a;
    } else {
      assert (a + b)[..|a + b| - 1] == a + b[..|b| - 1];
      SelectAppend(a, b[..|b| - 1], cat, c);
    }
  }

  /** A one-key sequence selects itself or nothing. */
  lemma SelectOne(k: string, cat: map<string, string>, c: string)
    ensures Select([k], cat, c) == if k in cat && cat[k] == c then [k] else []
  {
    assert [k][..0] == [];
  }

  /** The categories of the keys in order of first appearance: the keys of the `defaultdict`
      once every key has been filed. */
  function FirstSeen(s: seq<string>, cat: map<string, string>): seq<string> {
    if s == [] then []
    else
      var prefix := FirstSeen(s[..|s| - 1], cat);
      var k := s[|s| - 1];
      if k !in cat || cat[k] in prefix then prefix else prefix + [cat[k]]
  }

  lemma {:induction false} FirstSeenSpec(s: seq<string>, cat: map<string, string>)
    ensures Distinct(FirstSeen(s, cat))
    ensures forall c :: c in FirstSeen(s, cat) <==> exists k :: k in s && k in cat && cat[k] == c
  {
    if s != [] {
      var init, k := s[..|s| - 1], s[|s| - 1];
      FirstSeenSpec(init, cat);
      assert forall j :: j in s <==> j in init || j == k;
    }
  }

  /** The list of keys of each category of `cats`, in that order. */
  function Groups(s: seq<string>, cat: map<string, string>, cats: seq<string>): (g: seq<seq<string>>)
    ensures |g| == |cats|
    ensures forall i :: 0 <= i < |cats| ==> g[i] == Select(s, cat, cats[i])
  {
    if cats == [] then [] else Groups(s, cat, cats[..|cats| - 1]) + [Select(s, cat, cats[|cats| - 1])]
  }

  function SumLengths(g: seq<seq<string>>): nat {
    if g == [] then 0 else SumLengths(g[..|g| - 1]) + |g[|g| - 1]|
  }

  /** The total over all groups is the total over all but the last, plus the last group. */
  lemma GroupsLast(s: seq<string>, cat: map<string, string>, cats: seq<string>)
    requires cats != []
    ensures SumLengths(Groups(s, cat, cats)) ==
      SumLengths(Groups(s, cat, cats[..|cats| - 1])) + |Select(s, cat, cats[|cats| - 1])|
  {
    var g := Groups(s, cat, cats);
    assert g[..|cats| - 1] == Groups(s, cat, cats[..|cats| - 1]);
  }

  /** How many times `c` is listed in `cats`. */
  function Occurrences(cats: seq<string>, c: string): nat {
    if cats == [] then 0 else Occurrences(cats[..|cats| - 1], c) + (if cats[|cats| - 1] == c then 1 else 0)
  }

  lemma {:induction false} OccursOnce(cats: seq<string>, c: string)
    requires Distinct(cats)
    ensures Occurrences(cats, c) == if c in cats then 1 else 0
  {
    if cats != [] {
      var init, last := cats[..|cats| - 1], cats[|cats| - 1];
      assert Distinct(init);
      OccursOnce(init, c);
      assert cats == init + [last];
      assert last !in init;
    }
  }

  /** One more key adds one to the group of its category for each time that category is listed. */
  lemma {:induction false} GroupsStep(s: seq<string>, k: string, cat: map<string, string>, cats: seq<string>)
    ensures SumLengths(Groups(s + [k], cat, cats)) ==
      SumLengths(Groups(s, cat, cats)) + (if k in cat then Occurrences(cats, cat[k]) else 0)
  {
    if cats != [] {
      var n := |cats| - 1;
      GroupsLast(s + [k], cat, cats);
      GroupsLast(s, cat, cats);
      SelectAppend(s, [k], cat, cats[n]);
      SelectOne(k, cat, cats[n]);
      GroupsStep(s, k, cat, cats[..n]);
    }
  }

  lemma {:induction false} GroupsEmpty(cat: map<string, string>, cats: seq<string>)
    ensures SumLengths(Groups([], cat, cats)) == 0
  {
    if cats != [] {
      var n := |cats| - 1;
      assert Groups([], cat, cats)[..n] == Groups([], cat, cats[..n]);
      GroupsEmpty(cat, cats[..n]);
    }
  }

  /** The groups of all the categories share out all the keys. */
  lemma {:induction false} GroupsCover(s: seq<string>, cat: map<string, string>, cats: seq<string>)
    requires forall k :: k in s ==> k in cat && cat[k] in cats
    requires Distinct(cats)
    ensures SumLengths(Groups(s, cat, cats)) == |s|
  {
    if s == [] {
      GroupsEmpty(cat, cats);
    } else {
      var init := s[..|s| - 1];
      assert s == init + [s[|s| - 1]];
      GroupsCover(init, cat, cats);
      GroupsStep(init, s[|s| - 1], cat, cats);
      OccursOnce(cats, cat[s[|s| - 1]]);
    }
  }

  // ---- the round robin over sorted categories

  /** Round `r`: the `r`-th key of every list that has one, in list order. */
  function RoundOf(g: seq<seq<string>>, r: nat): seq<string> {
    if g == [] then []
    else RoundOf(g[..|g| - 1], r) + (if r < |g[|g| - 1]| then [g[|g| - 1][r]] else [])
  }

  /** The first `r` rounds. */
  function Rounds(g: seq<seq<string>>, r: nat): seq<string> {
    if r == 0 then [] else Rounds(g, r - 1) + RoundOf(g, r - 1)
  }

  /** The keys visited after `r` whole rounds and the first `j` lists of the next. */
  function Visited(g: seq<seq<string>>, r: nat, j: nat): seq<string>
    requires j <= |g|
  {
    Rounds(g, r) + RoundOf(g[..j], r)
  }

  /** The length of the longest list. */
  function Longest(g: seq<seq<string>>): (n: nat)
    ensures forall i :: 0 <= i < |g| ==> |g[i]| <= n
  {
    if g == [] then 0
    else
      var m := Longest(g[..|g| - 1]);
      assert forall i :: 0 <= i < |g| - 1 ==> g[i] == g[..|g| - 1][i];
      if |g[|g| - 1]| > m then |g[|g| - 1]| else m
  }

  /** Every key of every list in round-robin order: round 0, round 1, and so on. */
  function RoundRobin(g: seq<seq<string>>): seq<string> {
    Rounds(g, Longest(g))
  }

  /** How many keys of list `i` have been visited after `r` rounds and `j` lists. */
  function Taken(g: seq<seq<string>>, r: nat, j: nat, i: nat): nat
    requires i < |g|
  {
    (if r < |g[i]| then r else |g[i]|) + (if i < j && r < |g[i]| then 1 else 0)
  }

  predicate IsPrefix(a: seq<string>, b: seq<string>) {
    |a| <= |b| && b[..|a|] == a
  }

  lemma {:induction false} RoundOfPrefix(g: seq<seq<string>>, r: nat, j: nat)
    requires j <= |g|
    ensures IsPrefix(RoundOf(g[..j], r), RoundOf(g, r))
    decreases |g|
  {
    if j < |g| {
      var init := g[..|g| - 1];
      assert g[..j] == init[..j];
      RoundOfPrefix(init, r, j);
    } else {
      assert g[..j] == g;
    }
  }

  lemma {:induction false} RoundsPrefix(g: seq<seq<string>>, r: nat, r': nat)
    requires r <= r'
    ensures IsPrefix(Rounds(g, r), Rounds(g, r'))
    decreases r'
  {
    if r < r' {
      RoundsPrefix(g, r, r' - 1);
    }
  }

  lemma PrefixTransitive(a: seq<string>, b: seq<string>, c: seq<string>)
    requires IsPrefix(a, b) && IsPrefix(b, c)
    ensures IsPrefix(a, c)
  {
    assert c[..|a|] == c[..|b|][..|a|];
  }

  lemma PrefixAppend(a: seq<string>, b: seq<string>, c: seq<string>)
    requires IsPrefix(b, c)
    ensures IsPrefix(a + b, a + c)
  {
    assert (a + c)[..|a + b|] == a + c[..|b|];
  }

  /** Part way through round `r`, the visited keys are a prefix of the first `r + 1` rounds. */
  lemma VisitedWithinRound(g: seq<seq<string>>, r: nat, j: nat)
    requires j <= |g|
    ensures IsPrefix(Visited(g, r, j), Rounds(g, r + 1))
  {
    RoundOfPrefix(g, r, j);
    PrefixAppend(Rounds(g, r), RoundOf(g[..j], r), RoundOf(g, r));
  }

  /** Every state of the round robin short of the last round is a prefix of the whole order. */
  lemma VisitedPrefix(g: seq<seq<string>>, r: nat, j: nat)
    requires j <= |g| && (r < Longest(g) || (r == Longest(g) && j == 0))
    ensures IsPrefix(Visited(g, r, j), RoundRobin(g))
  {
    if r < Longest(g) {
      VisitedWithinRound(g, r, j);
      RoundsPrefix(g, r + 1, Longest(g));
      PrefixTransitive(Visited(g, r, j), Rounds(g, r + 1), RoundRobin(g));
    } else {
      VisitedStart(g, r);
      RoundsPrefix(g, r, r);
    }
  }

  /** Finishing a round is starting the next. */
  lemma NextRound(g: seq<seq<string>>, r: nat)
    ensures Visited(g, r, |g|) == Visited(g, r + 1, 0)
  {
    assert g[..|g|] == g;
    assert g[..0] == [];
  }

  /** Visiting list `j` adds its `r`-th key when it has one. */
  lemma NextList(g: seq<seq<string>>, r: nat, j: nat)
    requires j < |g|
    ensures Visited(g, r, j + 1) == Visited(g, r, j) + (if r < |g[j]| then [g[j][r]] else [])
  {
    assert g[..j + 1][..j] == g[..j];
  }

  function SumMin(g: seq<seq<string>>, r: nat): nat {
    if g == [] then 0 else SumMin(g[..|g| - 1], r) + (if r < |g[|g| - 1]| then r else |g[|g| - 1]|)
  }

  lemma {:induction false} RoundOfLength(g: seq<seq<string>>, r: nat)
    ensures SumMin(g, r + 1) == SumMin(g, r) + |RoundOf(g, r)|
  {
    if g != [] {
      RoundOfLength(g[..|g| - 1], r);
    }
  }

  lemma {:induction false} RoundsLength(g: seq<seq<string>>, r: nat)
    ensures RoundsCounted(g, r)
  {
    if r == 0 {
      SumMinZero(g);
    } else {
      RoundsLength(g, r - 1);
      RoundsLengthStep(g, r - 1);
    }
  }

  /** The first `r` rounds hold, of each list, as many keys as it has up to `r`. */
  predicate RoundsCounted(g: seq<seq<string>>, r: nat) {
    |Rounds(g, r)| == SumMin(g, r)
  }

  lemma RoundsLengthStep(g: seq<seq<string>>, r: nat)
    requires RoundsCounted(g, r)
    ensures RoundsCounted(g, r + 1)
  {
    RoundOfLength(g, r);
    assert Rounds(g, r + 1) == Rounds(g, r) + RoundOf(g, r);
  }

  lemma {:induction false} SumMinZero(g: seq<seq<string>>)
    ensures SumMin(g, 0) == 0
  {
    if g != [] {
      SumMinZero(g[..|g| - 1]);
    }
  }

  lemma {:induction false} SumMinAll(g: seq<seq<string>>, r: nat)
    requires forall i :: 0 <= i < |g| ==> |g[i]| <= r
    ensures SumMin(g, r) == SumLengths(g)
  {
    if g != [] {
      SumMinAll(g[..|g| - 1], r);
    }
  }

  /** The round robin lists as many keys as the lists hold together. */
  lemma RoundRobinLength(g: seq<seq<string>>)
    ensures |RoundRobin(g)| == SumLengths(g)
  {
    RoundsLength(g, Longest(g));
    SumMinAll(g, Longest(g));
  }

  // ---- what the round robin takes from each category

  /** List `i` holds keys of category `cats[i]` only. */
  predicate Filed(g: seq<seq<string>>, cat: map<string, string>, cats: seq<string>) {
    |g| == |cats| &&
    forall i, m :: 0 <= i < |g| && 0 <= m < |g[i]| ==> g[i][m] in cat && cat[g[i][m]] == cats[i]
  }

  lemma FiledPrefix(g: seq<seq<string>>, cat: map<string, string>, cats: seq<string>, j: nat)
    requires Filed(g, cat, cats) && j <= |g|
    ensures Filed(g[..j], cat, cats[..j])
  {
    forall i, m | 0 <= i < j && 0 <= m < |g[..j][i]|
      ensures g[..j][i][m] in cat && cat[g[..j][i][m]] == cats[..j][i]
    {
      assert g[..j][i] == g[i];
    }
  }

  lemma DistinctPrefix(cats: seq<string>, j: nat)
    requires Distinct(cats) && j <= |cats|
    ensures Distinct(cats[..j]) && forall i :: j <= i < |cats| ==> cats[i] !in cats[..j]
  {
  }

  /** A round holds nothing of a category that is not listed. */
  lemma {:induction false} RoundOfOther(g: seq<seq<string>>, cat: map<string, string>, cats: seq<string>, r: nat, c: string)
    requires Filed(g, cat, cats) && c !in cats
    ensures Select(RoundOf(g, r), cat, c) == []
  {
    if g != [] {
      var n := |g| - 1;
      FiledPrefix(g, cat, cats, n);
      RoundOfOther(g[..n], cat, cats[..n], r, c);
      var last := if r < |g[n]| then [g[n][r]] else [];
      SelectAppend(RoundOf(g[..n], r), last, cat, c);
      if r < |g[n]| {
        SelectOne(g[n][r], cat, c);
      }
    }
  }

  /** The key of list `n` at position `m` has the category of list `i` exactly when `i` is `n`. */
  lemma FiledKey(g: seq<seq<string>>, cat: map<string, string>, cats: seq<string>, n: nat, m: nat, i: nat)
    requires Filed(g, cat, cats) && Distinct(cats) && n < |g| && m < |g[n]| && i < |g|
    ensures (g[n][m] in cat && cat[g[n][m]] == cats[i]) == (i == n)
  {
  }

  /** The last list adds its `r`-th key to a round, and it counts for category `c` when the
      last list is the list of `c`. */
  lemma RoundOfLast(g: seq<seq<string>>, cat: map<string, string>, c: string, r: nat, isLast: bool)
    requires g != []
    requires r < |g[|g| - 1]| ==> (g[|g| - 1][r] in cat && cat[g[|g| - 1][r]] == c) == isLast
    ensures Select(RoundOf(g, r), cat, c) ==
      Select(RoundOf(g[..|g| - 1], r), cat, c) + (if isLast && r < |g[|g| - 1]| then [g[|g| - 1][r]] else [])
  {
    var n := |g| - 1;
    var last := if r < |g[n]| then [g[n][r]] else [];
    SelectAppend(RoundOf(g[..n], r), last, cat, c);
    if r < |g[n]| {
      SelectOne(g[n][r], cat, c);
    }
  }

  /** A round holds the `r`-th key of list `i` when it exists, and nothing else of category
      `cats[i]`. */
  lemma SelectRoundOf(g: seq<seq<string>>, cat: map<string, string>, cats: seq<string>, r: nat, i: nat)
    requires Filed(g, cat, cats) && Distinct(cats) && i < |g|
    ensures Select(RoundOf(g, r), cat, cats[i]) == if r < |g[i]| then [g[i][r]] else []
  {
    forall n: nat | n < |g| && r < |g[n]|
      ensures (g[n][r] in cat && cat[g[n][r]] == cats[i]) == (n == i)
    {
      FiledKey(g, cat, cats, n, r, i);
    }
    RoundKeysAll(g, cat, cats[i], r, i);
    SelectRoundKeys(g, cat, cats[i], r, i);
  }

  /** The `r`-th key of each list has category `c` exactly when the list is list `i`. */
  predicate RoundKeys(g: seq<seq<string>>, cat: map<string, string>, c: string, r: nat, i: nat) {
    g == [] ||
    (RoundKeys(g[..|g| - 1], cat, c, r, i) &&
     (r < |g[|g| - 1]| ==> (g[|g| - 1][r] in cat && cat[g[|g| - 1][r]] == c) == (|g| - 1 == i)))
  }

  lemma {:induction false} RoundKeysAll(g: seq<seq<string>>, cat: map<string, string>, c: string, r: nat, i: nat)
    requires forall n: nat | n < |g| && r < |g[n]| :: (g[n][r] in cat && cat[g[n][r]] == c) == (n == i)
    ensures RoundKeys(g, cat, c, r, i)
  {
    if g != [] {
      var n := |g| - 1;
      forall m: nat | m < n && r < |g[..n][m]|
        ensures (g[..n][m][r] in cat && cat[g[..n][m][r]] == c) == (m == i)
      {
        assert g[..n][m] == g[m];
      }
      RoundKeysAll(g[..n], cat, c, r, i);
    }
  }

  lemma {:induction false} SelectRoundKeys(g: seq<seq<string>>, cat: map<string, string>, c: string, r: nat, i: nat)
    requires RoundKeys(g, cat, c, r, i)
    ensures Select(RoundOf(g, r), cat, c) == if i < |g| && r < |g[i]| then [g[i][r]] else []
  {
    if g != [] {
      var n := |g| - 1;
      SelectRoundKeys(g[..n], cat, c, r, i);
      RoundOfLast(g, cat, c, r, n == i);
      if i < n {
        assert g[..n][i] == g[i];
      }
    }
  }

  lemma TakeOneMore<T>(s: seq<T>, n: nat)
    requires n < |s|
    ensures s[..n + 1] == s[..n] + [s[n]]
  {
  }

  /** The first `r` rounds hold the first `r` keys of each list, in order. */
  lemma SelectRounds(g: seq<seq<string>>, cat: map<string, string>, cats: seq<string>, r: nat, i: nat)
    requires Filed(g, cat, cats) && Distinct(cats) && i < |g|
    ensures Select(Rounds(g, r), cat, cats[i]) == g[i][..if r < |g[i]| then r else |g[i]|]
  {
    forall q: nat | q < r
      ensures Select(RoundOf(g, q), cat, cats[i]) == if q < |g[i]| then [g[i][q]] else []
    {
      SelectRoundOf(g, cat, cats, q, i);
    }
    ColumnFromAll(g, cat, cats[i], g[i], r);
  }

  /** Each of the first `r` rounds adds the next key of `l` to category `c`. */
  predicate ColumnUpTo(g: seq<seq<string>>, cat: map<string, string>, c: string, l: seq<string>, r: nat) {
    r == 0 || (ColumnUpTo(g, cat, c, l, r - 1) && Select(RoundOf(g, r - 1), cat, c) == if r - 1 < |l| then [l[r - 1]] else [])
  }

  lemma {:induction false} ColumnFromAll(g: seq<seq<string>>, cat: map<string, string>, c: string, l: seq<string>, r: nat)
    requires forall q: nat | q < r :: Select(RoundOf(g, q), cat, c) == if q < |l| then [l[q]] else []
    ensures Column(g, cat, c, l, r)
  {
    ColumnUpToAll(g, cat, c, l, r);
    SelectColumn(g, cat, c, l, r);
  }

  lemma {:induction false} ColumnUpToAll(g: seq<seq<string>>, cat: map<string, string>, c: string, l: seq<string>, r: nat)
    requires forall q: nat | q < r :: Select(RoundOf(g, q), cat, c) == if q < |l| then [l[q]] else []
    ensures ColumnUpTo(g, cat, c, l, r)
  {
    if r > 0 {
      ColumnUpToAll(g, cat, c, l, r - 1);
    }
  }

  /** Rounds that each add the next key of `l` to category `c` have added its first keys. */
  lemma {:induction false} SelectColumn(g: seq<seq<string>>, cat: map<string, string>, c: string, l: seq<string>, r: nat)
    requires ColumnUpTo(g, cat, c, l, r)
    ensures Column(g, cat, c, l, r)
  {
    if r > 0 {
      SelectColumn(g, cat, c, l, r - 1);
      ColumnNext(g, cat, c, l, r - 1);
    }
  }

  lemma ColumnNext(g: seq<seq<string>>, cat: map<string, string>, c: string, l: seq<string>, r: nat)
    requires ColumnUpTo(g, cat, c, l, r + 1) && Column(g, cat, c, l, r)
    ensures Column(g, cat, c, l, r + 1)
  {
    ColumnStep(g, cat, c, l, r);
  }

  /** The first `n` items of `l`, or all of them. */
  function Upto(l: seq<string>, n: nat): seq<string> {
    l[..if n < |l| then n else |l|]
  }

  /** The first `r` rounds hold the first keys of `l` as category `c`. */
  predicate Column(g: seq<seq<string>>, cat: map<string, string>, c: string, l: seq<string>, r: nat) {
    Select(Rounds(g, r), cat, c) == Upto(l, r)
  }

  /** A round that adds the next key of `l` to category `c` extends the keys of `c` taken
      so far by one. */
  lemma ColumnStep(g: seq<seq<string>>, cat: map<string, string>, c: string, l: seq<string>, r: nat)
    requires Column(g, cat, c, l, r)
    requires Select(RoundOf(g, r), cat, c) == if r < |l| then [l[r]] else []
    ensures Column(g, cat, c, l, r + 1)
  {
    var before, round := Rounds(g, r), RoundOf(g, r);
    assert Rounds(g, r + 1) == before + round;
    SelectAppend(before, round, cat, c);
    PrefixStep(Select(before, cat, c), Select(round, cat, c), l, r);
  }

  lemma PrefixStep(a: seq<string>, b: seq<string>, l: seq<string>, n: nat)
    requires a == l[..if n < |l| then n else |l|]
    requires b == if n < |l| then [l[n]] else []
    ensures a + b == l[..if n + 1 < |l| then n + 1 else |l|]
  {
    if n < |l| {
      assert l[..n + 1] == l[..n] + [l[n]];
    }
  }

  /** The first `j` lists of round `r` hold the `r`-th key of list `i` when `i` is among
      them and the key exists, and nothing else of category `cats[i]`. */
  lemma SelectPartRound(g: seq<seq<string>>, cat: map<string, string>, cats: seq<string>, r: nat, j: nat, i: nat)
    requires Filed(g, cat, cats) && Distinct(cats) && j <= |g| && i < |g|
    ensures Select(RoundOf(g[..j], r), cat, cats[i]) == if i < j && r < |g[i]| then [g[i][r]] else []
  {
    FiledPrefix(g, cat, cats, j);
    DistinctPrefix(cats, j);
    if i < j {
      SelectRoundOf(g[..j], cat, cats[..j], r, i);
      assert g[..j][i] == g[i];
    } else {
      RoundOfOther(g[..j], cat, cats[..j], r, cats[i]);
    }
  }

  /** After `r` rounds and `j` lists, the visited keys of category `cats[i]` are the first
      `Taken` keys of list `i`, in order. */
  lemma SelectVisited(g: seq<seq<string>>, cat: map<string, string>, cats: seq<string>, r: nat, j: nat, i: nat)
    requires Filed(g, cat, cats) && Distinct(cats) && j <= |g| && i < |g|
    ensures Select(Visited(g, r, j), cat, cats[i]) == g[i][..Taken(g, r, j, i)]
  {
    SelectRounds(g, cat, cats, r, i);
    SelectPartRound(g, cat, cats, r, j, i);
    SelectAppend(Rounds(g, r), RoundOf(g[..j], r), cat, cats[i]);
    if i < j && r < |g[i]| {
      TakeOneMore(g[i], r);
    }
  }

  // ---- the keys the round robin visits

  /** Every key of every list is in `s`. */
  predicate Within(g: seq<seq<string>>, s: seq<string>) {
    forall i, m :: 0 <= i < |g| && 0 <= m < |g[i]| ==> g[i][m] in s
  }

  lemma {:induction false} RoundOfWithin(g: seq<seq<string>>, s: seq<string>, r: nat)
    requires Within(g, s)
    ensures forall k :: k in RoundOf(g, r) ==> k in s
  {
    if g != [] {
      var n := |g| - 1;
      assert Within(g[..n], s) by {
        forall i, m | 0 <= i < n && 0 <= m < |g[..n][i]| ensures g[..n][i][m] in s {
          assert g[..n][i] == g[i];
        }
      }
      RoundOfWithin(g[..n], s, r);
    }
  }

  lemma {:induction false} RoundsWithin(g: seq<seq<string>>, s: seq<string>, r: nat)
    requires Within(g, s)
    ensures forall k :: k in Rounds(g, r) ==> k in s
  {
    if r > 0 {
      RoundsWithin(g, s, r - 1);
      RoundOfWithin(g, s, r - 1);
    }
  }

  lemma DistinctInit<T>(a: seq<T>, b: seq<T>)
    requires Distinct(a + b)
    ensures Distinct(a)
  {
    forall i, j | 0 <= i < j < |a| ensures a[i] != a[j] {
      assert a[i] == (a + b)[i] && a[j] == (a + b)[j];
    }
  }

  lemma DistinctLast<T>(a: seq<T>, x: T)
    requires Distinct(a + [x])
    ensures x !in a
  {
    forall i | 0 <= i < |a| ensures a[i] != x {
      assert a[i] == (a + [x])[i] && x == (a + [x])[|a|];
    }
  }

  lemma DistinctAppend<T>(a: seq<T>, x: T)
    requires Distinct(a) && x !in a
    ensures Distinct(a + [x])
  {
    forall i, j | 0 <= i < j < |a| + 1 ensures (a + [x])[i] != (a + [x])[j] {
      assert (a + [x])[i] == a[i];
    }
  }

  /** Dropping the last key keeps each category's part free of repeats. */
  lemma SelectInit(init: seq<string>, k: string, cat: map<string, string>, c: string)
    requires Distinct(Select(init + [k], cat, c))
    ensures Distinct(Select(init, cat, c))
  {
    SelectAppend(init, [k], cat, c);
    DistinctInit(Select(init, cat, c), Select([k], cat, c));
  }

  /** The last key of a category's repeat-free part is not among the keys before it. */
  lemma SelectLast(init: seq<string>, k: string, cat: map<string, string>)
    requires k in cat && Distinct(Select(init + [k], cat, cat[k]))
    ensures k !in init
  {
    SelectAppend(init, [k], cat, cat[k]);
    SelectOne(k, cat, cat[k]);
    SelectMembers(init, cat, cat[k]);
    DistinctLast(Select(init, cat, cat[k]), k);
  }

  /** A sequence is free of repeats when each category's part of it is. */
  lemma {:induction false} DistinctByCategory(s: seq<string>, cat: map<string, string>)
    requires forall k :: k in s ==> k in cat && Distinct(Select(s, cat, cat[k]))
    ensures Distinct(s)
  {
    if s != [] {
      var init, k := s[..|s| - 1], s[|s| - 1];
      assert s == init + [k];
      forall x | x in init
        ensures x in cat && Distinct(Select(init, cat, cat[x]))
      {
        assert x in s;
        SelectInit(init, k, cat, cat[x]);
      }
      DistinctByCategory(init, cat);
      SelectLast(init, k, cat);
      DistinctAppend(init, k);
    }
  }

  lemma SortedDistinct(s: seq<string>)
    requires StrictlySorted(s)
    ensures Distinct(s)
  {
    forall i, j | 0 <= i < j < |s| ensures s[i] != s[j] {
      if s[i] == s[j] {
        LessIrreflexive(s[i]);
      }
    }
  }

  /** The rounds that are whole in the first `m` keys of the round robin. */
  lemma {:induction false} FindRound(g: seq<seq<string>>, m: nat, r0: nat) returns (r: nat)
    requires r0 <= Longest(g) && |Rounds(g, r0)| <= m < |RoundRobin(g)|
    ensures r0 <= r < Longest(g)
    ensures |Rounds(g, r)| <= m < |Rounds(g, r + 1)|
    decreases Longest(g) - r0
  {
    RoundsPrefix(g, r0 + 1, Longest(g));
    if m < |Rounds(g, r0 + 1)| {
      r := r0;
    } else {
      r := FindRound(g, m, r0 + 1);
    }
  }

  /** The number of lists of round `r` that the first `k` keys of that round cover. */
  lemma {:induction false} FindList(g: seq<seq<string>>, r: nat, k: nat, j0: nat) returns (j: nat)
    requires j0 <= |g| && |RoundOf(g[..j0], r)| <= k < |RoundOf(g, r)|
    ensures j0 <= j <= |g| && |RoundOf(g[..j], r)| == k
    decreases |g| - j0
  {
    if |RoundOf(g[..j0], r)| == k {
      j := j0;
    } else {
      assert j0 < |g| by {
        assert g[..|g|] == g;
      }
      NextList(g, r, j0);
      j := FindList(g, r, k, j0 + 1);
    }
  }

  /** Every proper prefix of the round robin is the state after some whole rounds and some
      lists of the next. */
  lemma PrefixVisited(g: seq<seq<string>>, m: nat) returns (r: nat, j: nat)
    requires m < |RoundRobin(g)|
    ensures r < Longest(g) && j <= |g|
    ensures Visited(g, r, j) == RoundRobin(g)[..m]
  {
    r := FindRound(g, m, 0);
    assert g[..0] == [];
    RoundOfPrefix(g, r, |g|);
    assert g[..|g|] == g;
    j := FindList(g, r, m - |Rounds(g, r)|, 0);
    VisitedPrefix(g, r, j);
  }

  // ---- get_survey_sample as a specification

  /** `sorted(categories)`: the categories of the detections, sorted. */
  function Categories(d: Detections): seq<string> {
    Sort(FirstSeen(d.keys, CategoryOf(d)))
  }

  /** The keys of each category, in the order of the dictionary, one list per sorted category. */
  function Grouped(d: Detections): seq<seq<string>> {
    Groups(d.keys, CategoryOf(d), Categories(d))
  }

  /** The listed categories are those of the detections, sorted, each holding a detection. */
  lemma CategoriesSpec(d: Detections)
    requires WellFormed(d) && HasCategories(d)
    ensures StrictlySorted(Categories(d)) && Distinct(Categories(d))
    ensures forall k :: k in d.keys ==> k in CategoryOf(d) && CategoryOf(d)[k] in Categories(d)
    ensures forall c :: c in Categories(d) ==> Select(d.keys, CategoryOf(d), c) != []
  {
    var cat, cats := CategoryOf(d), Categories(d);
    FirstSeenSpec(d.keys, cat);
    SortSpec(FirstSeen(d.keys, cat));
    SortedDistinct(cats);
    forall k | k in d.keys ensures k in cat && cat[k] in cats {
      assert k in d.entries;
    }
    forall c | c in cats ensures Select(d.keys, cat, c) != [] {
      var k :| k in d.keys && k in cat && cat[k] == c;
      SelectMembers(d.keys, cat, c);
    }
  }

  /** List `i` holds the detections of the `i`-th sorted category. */
  lemma GroupedFiled(d: Detections)
    requires WellFormed(d) && HasCategories(d)
    ensures Filed(Grouped(d), CategoryOf(d), Categories(d)) && Within(Grouped(d), d.keys)
    ensures Distinct(Categories(d))
  {
    var cat, cats, g := CategoryOf(d), Categories(d), Grouped(d);
    CategoriesSpec(d);
    forall i, m | 0 <= i < |g| && 0 <= m < |g[i]|
      ensures g[i][m] in d.keys && g[i][m] in cat && cat[g[i][m]] == cats[i]
    {
      SelectMembers(d.keys, cat, cats[i]);
      assert g[i][m] in g[i];
    }
  }

  /** The round robin visits as many keys as there are detections. */
  lemma GroupedLength(d: Detections)
    requires WellFormed(d) && HasCategories(d)
    ensures |RoundRobin(Grouped(d))| == |d.keys|
  {
    CategoriesSpec(d);
    GroupsCover(d.keys, CategoryOf(d), Categories(d));
    RoundRobinLength(Grouped(d));
  }

  /** The round robin visits no detection twice, and only detections of `d`. */
  lemma GroupedDistinct(d: Detections)
    requires WellFormed(d) && HasCategories(d)
    ensures Distinct(RoundRobin(Grouped(d)))
    ensures forall k :: k in RoundRobin(Grouped(d)) ==> k in d.keys
  {
    var cat, cats, g := CategoryOf(d), Categories(d), Grouped(d);
    GroupedFiled(d);
    CategoriesSpec(d);
    var rr := RoundRobin(g);
    RoundsWithin(g, d.keys, Longest(g));
    forall k | k in rr ensures k in cat && Distinct(Select(rr, cat, cat[k])) {
      var i :| 0 <= i < |cats| && cats[i] == cat[k];
      CategoryVisitedOnce(d, i);
    }
    DistinctByCategory(rr, cat);
  }

  /** The round robin visits the detections of each category once each, in dictionary order. */
  lemma CategoryVisitedOnce(d: Detections, i: nat)
    requires WellFormed(d) && HasCategories(d) && i < |Categories(d)|
    ensures Select(RoundRobin(Grouped(d)), CategoryOf(d), Categories(d)[i]) == Grouped(d)[i]
    ensures Distinct(Grouped(d)[i])
  {
    var cat, cats, g := CategoryOf(d), Categories(d), Grouped(d);
    GroupedFiled(d);
    SelectRounds(g, cat, cats, Longest(g), i);
    assert g[i][..|g[i]|] == g[i];
    SelectDistinct(d.keys, cat, cats[i]);
  }

  /** The lists share out the detections by category, and the round robin visits each
      detection exactly once. */
  lemma GroupedSpec(d: Detections)
    requires WellFormed(d) && HasCategories(d)
    ensures Filed(Grouped(d), CategoryOf(d), Categories(d))
    ensures Within(Grouped(d), d.keys)
    ensures |RoundRobin(Grouped(d))| == |d.keys|
    ensures Distinct(RoundRobin(Grouped(d)))
    ensures forall k :: k in RoundRobin(Grouped(d)) ==> k in d.keys
  {
    GroupedFiled(d);
    GroupedLength(d);
    GroupedDistinct(d);
  }

  /** The detections of `d` under the keys `ks`, in that order. */
  function SubDict(d: Detections, ks: seq<string>): Detections {
    Detections(ks, Entries(d, ks))
  }

  /** The entries of `d` under the keys `ks`, stored one key after the other. */
  function Entries(d: Detections, ks: seq<string>): map<string, Detection> {
    if ks == [] then map[]
    else
      var k := ks[|ks| - 1];
      var before := Entries(d, ks[..|ks| - 1]);
      if k in d.entries then before[k := d.entries[k]] else before
  }

  /** The entries are those of the keys `ks` that `d` has, each unchanged. */
  lemma {:induction false} EntriesSpec(d: Detections, ks: seq<string>)
    ensures forall k :: k in Entries(d, ks) <==> k in ks && k in d.entries
    ensures forall k :: k in Entries(d, ks) ==> Entries(d, ks)[k] == d.entries[k]
  {
    if ks != [] {
      var init := ks[..|ks| - 1];
      EntriesSpec(d, init);
      assert ks == init + [ks[|ks| - 1]];
    }
  }

  /** `get_survey_sample` once there are more detections than places: the first `m` keys of
      the round robin over the sorted categories, each with its detection. */
  function Sample(d: Detections, m: int): Detections
    requires WellFormed(d) && HasCategories(d) && m < |d.keys|
  {
    GroupedSpec(d);
    SubDict(d, RoundRobin(Grouped(d))[..if m < 0 then 0 else m])
  }

  /** The sample holds `m` distinct detections of `d`, each unchanged. */
  lemma SampleSpec(d: Detections, m: int)
    requires WellFormed(d) && HasCategories(d) && m < |d.keys|
    ensures |Sample(d, m).keys| == if m < 0 then 0 else m
    ensures WellFormed(Sample(d, m))
    ensures forall k :: k in Sample(d, m).entries ==> k in d.entries && Sample(d, m).entries[k] == d.entries[k]
  {
    GroupedSpec(d);
    var rr := RoundRobin(Grouped(d));
    var ks := Sample(d, m).keys;
    EntriesSpec(d, ks);
    assert ks == rr[..|ks|];
    forall k | k in ks ensures k in d.entries {
      assert k in rr;
    }
  }

  /** The sample is a state of the round robin. */
  lemma SampleVisited(d: Detections, m: int) returns (r: nat, j: nat)
    requires WellFormed(d) && HasCategories(d) && m < |d.keys|
    ensures j <= |Grouped(d)| && Sample(d, m).keys == Visited(Grouped(d), r, j)
  {
    GroupedSpec(d);
    var n := if m < 0 then 0 else m;
    assert Sample(d, m).keys == RoundRobin(Grouped(d))[..n];
    if n == |d.keys| {
      r, j := 0, 0;
      assert Grouped(d)[..0] == [];
    } else {
      r, j := PrefixVisited(Grouped(d), n);
    }
  }

  /** No list is taken past its end; two lists differ by at most one key taken unless the
      one with fewer has run out; and an earlier list never has fewer unless it has run out. */
  lemma TakenFair(g: seq<seq<string>>, r: nat, j: nat)
    ensures forall i :: 0 <= i < |g| ==> Taken(g, r, j, i) <= |g[i]|
    ensures forall i, i' :: 0 <= i < |g| && 0 <= i' < |g| ==>
      Taken(g, r, j, i) <= Taken(g, r, j, i') + 1 || Taken(g, r, j, i') == |g[i']|
    ensures forall i, i' :: 0 <= i < i' < |g| ==>
      Taken(g, r, j, i') <= Taken(g, r, j, i) || Taken(g, r, j, i) == |g[i]|
  {
  }

  /** For some state of the round robin, each category's part of the sample is as long as
      that state's `Taken`, leads the category's detections, and is all of them exactly when
      the category has run out. */
  lemma SampleTaken(d: Detections, m: int) returns (r: nat, j: nat)
    requires WellFormed(d) && HasCategories(d) && m < |d.keys|
    ensures var cat, cats, s, g := CategoryOf(d), Categories(d), Sample(d, m).keys, Grouped(d);
      |g| == |cats| &&
      forall i :: 0 <= i < |cats| ==>
        IsPrefix(Select(s, cat, cats[i]), Select(d.keys, cat, cats[i])) &&
        |Select(s, cat, cats[i])| == Taken(g, r, j, i) &&
        (Select(s, cat, cats[i]) == Select(d.keys, cat, cats[i]) <==> Taken(g, r, j, i) == |g[i]|)
  {
    var cat, cats, g := CategoryOf(d), Categories(d), Grouped(d);
    r, j := SampleVisited(d, m);
    GroupedFiled(d);
    forall i | 0 <= i < |cats|
      ensures IsPrefix(Select(Visited(g, r, j), cat, cats[i]), g[i])
      ensures |Select(Visited(g, r, j), cat, cats[i])| == Taken(g, r, j, i)
      ensures Select(Visited(g, r, j), cat, cats[i]) == g[i] <==> Taken(g, r, j, i) == |g[i]|
    {
      TakenPart(g, cat, cats, r, j, i);
    }
  }

  /** The keys of list `i` visited so far lead the list, are `Taken` in number, and are the
      whole list exactly when it has run out. */
  lemma TakenPart(g: seq<seq<string>>, cat: map<string, string>, cats: seq<string>, r: nat, j: nat, i: nat)
    requires Filed(g, cat, cats) && Distinct(cats) && j <= |g| && i < |g|
    ensures IsPrefix(Select(Visited(g, r, j), cat, cats[i]), g[i])
    ensures |Select(Visited(g, r, j), cat, cats[i])| == Taken(g, r, j, i)
    ensures Select(Visited(g, r, j), cat, cats[i]) == g[i] <==> Taken(g, r, j, i) == |g[i]|
  {
    SelectVisited(g, cat, cats, r, j, i);
    assert g[i][..|g[i]|] == g[i];
  }

  /** Each category's part of the sample is its first detections in dictionary order; two
      categories differ by at most one unless the smaller has run out; and of two categories,
      the one sorted first never has fewer unless it has run out. */
  lemma SampleFair(d: Detections, m: int)
    requires WellFormed(d) && HasCategories(d) && m < |d.keys|
    ensures var cat, cats, s := CategoryOf(d), Categories(d), Sample(d, m).keys;
      (forall i :: 0 <= i < |cats| ==> IsPrefix(Select(s, cat, cats[i]), Select(d.keys, cat, cats[i]))) &&
      (forall i, i' :: 0 <= i < |cats| && 0 <= i' < |cats| ==>
        |Select(s, cat, cats[i])| <= |Select(s, cat, cats[i'])| + 1 ||
        Select(s, cat, cats[i']) == Select(d.keys, cat, cats[i'])) &&
      (forall i, i' :: 0 <= i < i' < |cats| ==>
        |Select(s, cat, cats[i'])| <= |Select(s, cat, cats[i])| ||
        Select(s, cat, cats[i]) == Select(d.keys, cat, cats[i]))
  {
    var r, j := SampleTaken(d, m);
    TakenFair(Grouped(d), r, j);
  }

  // ---- get_survey_sample

  /** A `defaultdict(list)` from category to keys: its keys in insertion order, and the list
      under each. */
  datatype Buckets = Buckets(order: seq<string>, lists: map<string, seq<string>>)

  /** `buckets[c].append(k)`, which creates the entry `c` on first use. */
  function AppendTo(b: Buckets, c: string, k: string): Buckets {
    if c in b.lists then Buckets(b.order, b.lists[c := b.lists[c] + [k]])
    else Buckets(b.order + [c], b.lists[c := [k]])
  }

  /** `d[k] = v` on a dictionary: a new key goes last, an old one keeps its place. */
  function Put(d: Detections, k: string, v: Detection): Detections {
    if k in d.entries then Detections(d.keys, d.entries[k := v])
    else Detections(d.keys + [k], d.entries[k := v])
  }

  /** A category no key has shown yet has no keys. */
  lemma {:induction false} SelectUnseen(s: seq<string>, cat: map<string, string>, c: string)
    requires c !in FirstSeen(s, cat)
    ensures Select(s, cat, c) == []
  {
    if s != [] {
      var init, k := s[..|s| - 1], s[|s| - 1];
      assert forall x :: x in FirstSeen(init, cat) ==> x in FirstSeen(s, cat);
      SelectUnseen(init, cat, c);
    }
  }

  /** `b` files the keys of `s` by category, the categories in order of first appearance. */
  ghost predicate Bucketed(b: Buckets, s: seq<string>, cat: map<string, string>) {
    b.order == FirstSeen(s, cat) &&
    (forall c :: c in b.lists <==> c in b.order) &&
    (forall c :: c in b.lists ==> b.lists[c] == Select(s, cat, c))
  }

  /** Appending a key to the list of its category files one more key. */
  lemma BucketStep(b: Buckets, s: seq<string>, k: string, cat: map<string, string>)
    requires Bucketed(b, s, cat) && k in cat
    ensures Bucketed(AppendTo(b, cat[k], k), s + [k], cat)
  {
    assert (s + [k])[..|s|] == s;
    if cat[k] !in b.lists {
      SelectUnseen(s, cat, cat[k]);
    }
  }

  /** The grouping loop of `get_survey_sample`: each key appended to the list of its
      category, the categories in order of first appearance; a detection without a
      `category` raises `KeyError`. */
  method GroupByCategory(d: Detections) returns (r: Result<Buckets, PyError>)
    requires WellFormed(d)
    ensures r.Err? <==> !HasCategories(d)
    ensures r.Err? ==> r.error == KeyError
    ensures r.Ok? ==> Bucketed(r.value, d.keys, CategoryOf(d))
  {
    var b := Buckets([], map[]);
    for i := 0 to |d.keys|
      invariant forall k :: k in d.keys[..i] ==> "category" in d.entries[k]
      invariant Bucketed(b, d.keys[..i], CategoryOf(d))
    {
      var key := d.keys[i];
      var value := d.entries[key];
      if "category" !in value {
        return Err(KeyError);
      }
      BucketNext(b, d.keys, i, CategoryOf(d), value["category"]);
      b := AppendTo(b, value["category"], key);
    }
    assert d.keys[..|d.keys|] == d.keys;
    return Ok(b);
  }

  /** One turn of the grouping loop keeps the buckets in step with the keys seen. */
  lemma BucketNext(b: Buckets, s: seq<string>, i: nat, cat: map<string, string>, c: string)
    requires i < |s| && s[i] in cat && cat[s[i]] == c
    requires Bucketed(b, s[..i], cat)
    ensures Bucketed(AppendTo(b, c, s[i]), s[..i + 1], cat)
  {
    BucketStep(b, s[..i], s[i], cat);
    TakeOneMore(s, i);
  }

  /** The round robin's state before any list of round `r` is its first `r` rounds. */
  lemma VisitedStart(g: seq<seq<string>>, r: nat)
    ensures Visited(g, r, 0) == Rounds(g, r)
  {
    assert g[..0] == [];
  }

  /** Storing a new key of `d` extends the sub-dictionary by that key. */
  lemma SubDictPut(d: Detections, ks: seq<string>, k: string)
    requires k in d.entries && k !in ks
    ensures SubDict(d, ks + [k]) == Put(SubDict(d, ks), k, d.entries[k])
  {
    EntriesSpec(d, ks);
    assert (ks + [k])[..|ks|] == ks;
  }

  /** In a sequence without repetitions, an item does not occur before itself. */
  lemma DistinctPrefixLast(s: seq<string>, v: seq<string>, k: string)
    requires Distinct(s) && IsPrefix(v + [k], s)
    ensures k !in v
  {
    var n := |v| + 1;
    assert s == s[..n] + s[n..];
    DistinctInit(s[..n], s[n..]);
    DistinctLast(v, k);
  }

  /** Taking the `r`-th key of list `j` adds that key, which is new, to the sample. */
  lemma PickStep(d: Detections, g: seq<seq<string>>, r: nat, j: nat)
    requires Drawn(d, RoundRobin(g))
    requires r < Longest(g) && j < |g| && r < |g[j]|
    ensures g[j][r] in d.entries
    ensures Visited(g, r, j + 1) == Visited(g, r, j) + [g[j][r]]
    ensures SubDict(d, Visited(g, r, j + 1)) == Put(SubDict(d, Visited(g, r, j)), g[j][r], d.entries[g[j][r]])
  {
    NextList(g, r, j);
    VisitedPrefix(g, r, j + 1);
    DrawnPrefixLast(d, RoundRobin(g), Visited(g, r, j), g[j][r]);
    SubDictPut(d, Visited(g, r, j), g[j][r]);
  }

  /** The key that follows a prefix of a drawn sequence is a detection that the prefix does not
      hold. */
  lemma DrawnPrefixLast(d: Detections, s: seq<string>, v: seq<string>, k: string)
    requires Drawn(d, s) && IsPrefix(v + [k], s)
    ensures k in d.entries && k !in v
  {
    DrawnSpec(d, s);
    DistinctPrefixLast(s, v, k);
    assert k == s[|v|];
  }

  /** Every key of `s` is a detection of `d`, and none occurs twice. */
  predicate Drawn(d: Detections, s: seq<string>) {
    s == [] || (Drawn(d, s[..|s| - 1]) && s[|s| - 1] in d.entries && s[|s| - 1] !in s[..|s| - 1])
  }

  lemma {:induction false} DrawnSpec(d: Detections, s: seq<string>)
    ensures Drawn(d, s) <==> Distinct(s) && forall k :: k in s ==> k in d.entries
  {
    if s != [] {
      var init, k := s[..|s| - 1], s[|s| - 1];
      assert s == init + [k];
      DrawnSpec(d, init);
      if Distinct(s) {
        DistinctInit(init, [k]);
        DistinctLast(init, k);
      }
      if Drawn(d, s) {
        forall i, j | 0 <= i < j < |s| ensures s[i] != s[j] {
          if j < |s| - 1 {
            assert s[i] == init[i] && s[j] == init[j];
          } else {
            assert s[i] in init;
          }
        }
      }
    }
  }

  /** List `i` still to be sampled: its keys without those taken so far. */
  predicate ListLeft(lists: map<string, seq<string>>, g: seq<seq<string>>, cats: seq<string>, r: nat, j: nat, i: nat)
    requires i < |g| && |cats| == |g|
  {
    cats[i] in lists && Taken(g, r, j, i) <= |g[i]| && lists[cats[i]] == g[i][Taken(g, r, j, i)..]
  }

  /** The first `n` lists still to be sampled. */
  predicate ListsLeft(lists: map<string, seq<string>>, g: seq<seq<string>>, cats: seq<string>, r: nat, j: nat, n: nat)
    requires n <= |g| && |cats| == |g|
  {
    n == 0 || (ListsLeft(lists, g, cats, r, j, n - 1) && ListLeft(lists, g, cats, r, j, n - 1))
  }

  lemma {:induction false} ListsLeftAll(lists: map<string, seq<string>>, g: seq<seq<string>>, cats: seq<string>, r: nat, j: nat, n: nat)
    requires n <= |g| && |cats| == |g|
    ensures ListsLeft(lists, g, cats, r, j, n) <==> forall i :: 0 <= i < n ==> ListLeft(lists, g, cats, r, j, i)
  {
    if n > 0 {
      ListsLeftAll(lists, g, cats, r, j, n - 1);
    }
  }

  /** The lists still to be sampled: list `i` without the keys taken so far. */
  ghost predicate Remaining(lists: map<string, seq<string>>, g: seq<seq<string>>, cats: seq<string>, r: nat, j: nat)
    requires j <= |g|
  {
    |cats| == |g| && ListsLeft(lists, g, cats, r, j, |g|)
  }

  /** Visiting list `j`: its remaining keys start with its `r`-th key when it has one, and
      popping that key leaves the lists remaining after list `j`. */
  lemma RemainingStep(lists: map<string, seq<string>>, g: seq<seq<string>>, cats: seq<string>, r: nat, j: nat)
    requires j < |g| && Remaining(lists, g, cats, r, j) && Distinct(cats)
    ensures cats[j] in lists
    ensures var l := lists[cats[j]];
      (l != [] <==> r < |g[j]|) && (l != [] ==> l[0] == g[j][r]) &&
      Remaining(if l != [] then lists[cats[j] := l[1..]] else lists, g, cats, r, j + 1)
  {
    ListsLeftAll(lists, g, cats, r, j, |g|);
    assert ListLeft(lists, g, cats, r, j, j);
    var l := lists[cats[j]];
    var after := if l != [] then lists[cats[j] := l[1..]] else lists;
    var next := j + 1;
    forall i | 0 <= i < |g|
      ensures ListLeft(after, g, cats, r, next, i)
    {
      assert ListLeft(lists, g, cats, r, j, i);
      if i != j {
        assert cats[i] != cats[j];
      }
    }
    ListsLeftAll(after, g, cats, r, next, |g|);
  }

  /** Finishing a round leaves the lists remaining at the start of the next. */
  lemma RemainingRound(lists: map<string, seq<string>>, g: seq<seq<string>>, cats: seq<string>, r: nat)
    requires Remaining(lists, g, cats, r, |g|)
    ensures Remaining(lists, g, cats, r + 1, 0)
  {
    ListsLeftAll(lists, g, cats, r, |g|, |g|);
    var next := r + 1;
    forall i | 0 <= i < |g|
      ensures ListLeft(lists, g, cats, next, 0, i)
    {
      assert ListLeft(lists, g, cats, r, |g|, i);
      assert Taken(g, r, |g|, i) == Taken(g, next, 0, i);
    }
    ListsLeftAll(lists, g, cats, next, 0, |g|);
  }

  /** While the round robin has keys left, another round remains. */
  lemma RoundsBeforeEnd(g: seq<seq<string>>, r: nat)
    requires r <= Longest(g) && |Visited(g, r, 0)| < |RoundRobin(g)|
    ensures r < Longest(g)
  {
    VisitedStart(g, r);
  }

  /** The buckets hold, under each sorted category, the whole list of its keys. */
  lemma StartLists(d: Detections, categories: Buckets)
    requires WellFormed(d) && HasCategories(d) && Bucketed(categories, d.keys, CategoryOf(d))
    ensures Sort(categories.order) == Categories(d)
    ensures Remaining(categories.lists, Grouped(d), Categories(d), 0, 0)
  {
    FirstSeenSpec(d.keys, CategoryOf(d));
    SortSpec(categories.order);
    var g, cats := Grouped(d), Categories(d);
    forall i | 0 <= i < |g|
      ensures ListLeft(categories.lists, g, cats, 0, 0, i)
    {
      assert cats[i] in categories.order;
    }
    ListsLeftAll(categories.lists, g, cats, 0, 0, |g|);
  }

  /** What the sampling loop starts from: the sorted categories, each with the whole list of
      its keys, and a round robin that visits each detection once. */
  lemma PickSetup(d: Detections, categories: Buckets)
    requires WellFormed(d) && HasCategories(d) && Bucketed(categories, d.keys, CategoryOf(d))
    ensures Sort(categories.order) == Categories(d)
    ensures Distinct(Categories(d))
    ensures Remaining(categories.lists, Grouped(d), Categories(d), 0, 0)
    ensures Drawn(d, RoundRobin(Grouped(d))) && |RoundRobin(Grouped(d))| == |d.keys|
  {
    StartLists(d, categories);
    GroupedDrawn(d);
    CategoriesSpec(d);
  }

  /** The round robin visits every detection once. */
  lemma GroupedDrawn(d: Detections)
    requires WellFormed(d) && HasCategories(d)
    ensures Drawn(d, RoundRobin(Grouped(d))) && |RoundRobin(Grouped(d))| == |d.keys|
  {
    GroupedSpec(d);
    DrawnFrom(d, RoundRobin(Grouped(d)));
  }

  /** Distinct keys of `d` that all have entries are drawn from `d`. */
  lemma DrawnFrom(d: Detections, s: seq<string>)
    requires Distinct(s) && (forall k :: k in s ==> k in d.keys) && (forall k :: k in d.keys ==> k in d.entries)
    ensures Drawn(d, s)
  {
    DrawnSpec(d, s);
  }

  /** One pass of the `for` loop of `get_survey_sample` over the sorted categories: the front
      key of each list that has one is popped and stored, and the pass stops, reporting it,
      when it reaches a category with `maxDisplay` keys already taken. A pass that stops holds
      the first `maxDisplay` keys of the round robin; one that does not has finished round
      `r`. */
  method SampleRound(d: Detections, sortedCategories: seq<string>, lists: map<string, seq<string>>,
                     sampled: Detections, samples: int, maxDisplay: int,
                     ghost g: seq<seq<string>>, ghost r: nat)
    returns (lists': map<string, seq<string>>, sampled': Detections, samples': int, stop: bool)
    requires Drawn(d, RoundRobin(g)) && Distinct(sortedCategories) && maxDisplay < |RoundRobin(g)|
    requires Sampling(d, g, sortedCategories, lists, sampled, samples, maxDisplay, r) && samples < maxDisplay
    ensures stop ==> sampled' == SubDict(d, RoundRobin(g)[..maxDisplay])
    ensures !stop ==> r < Longest(g) && Sampling(d, g, sortedCategories, lists', sampled', samples', maxDisplay, r + 1)
  {
    RoundBegin(d, g, sortedCategories, lists, sampled, samples, maxDisplay, r);
    lists', sampled', samples', stop := lists, sampled, samples, false;
    for j := 0 to |sortedCategories|
      invariant samples' == |Visited(g, r, j)| && sampled' == SubDict(d, Visited(g, r, j))
      invariant samples' <= maxDisplay
      invariant Remaining(lists', g, sortedCategories, r, j)
    {
      if samples' >= maxDisplay {
        SampledPrefix(d, g, r, j, sampled', samples');
        return lists', sampled', samples', true;
      }
      var category := sortedCategories[j];
      RemainingStep(lists', g, sortedCategories, r, j);
      if |lists'[category]| > 0 {
        var key := lists'[category][0];
        assert key == g[j][r];
        PickStep(d, g, r, j);
        lists' := lists'[category := lists'[category][1..]];
        sampled' := Put(sampled', key, d.entries[key]);
        samples' := samples' + 1;
      } else {
        assert |g[j]| <= r;
        NextList(g, r, j);
        assert Visited(g, r, j) + [] == Visited(g, r, j);
      }
    }
    RoundDone(d, g, sortedCategories, lists', sampled', samples', maxDisplay, r);
  }

  /** The state of the sampling loop after `r` whole rounds: the keys of those rounds are
      sampled, each list holds its keys not yet visited, and the count stays within
      `maxDisplay` unless nothing was taken. */
  ghost predicate Sampling(d: Detections, g: seq<seq<string>>, cats: seq<string>, lists: map<string, seq<string>>,
                           sampled: Detections, samples: int, maxDisplay: int, r: nat)
  {
    r <= Longest(g) && Remaining(lists, g, cats, r, 0) &&
    samples == |Rounds(g, r)| && sampled == SubDict(d, Rounds(g, r)) &&
    (samples <= maxDisplay || samples == 0)
  }

  lemma RoundBegin(d: Detections, g: seq<seq<string>>, cats: seq<string>, lists: map<string, seq<string>>,
                   sampled: Detections, samples: int, maxDisplay: int, r: nat)
    requires Sampling(d, g, cats, lists, sampled, samples, maxDisplay, r) && samples < maxDisplay < |RoundRobin(g)|
    ensures r < Longest(g) && Remaining(lists, g, cats, r, 0)
    ensures samples == |Visited(g, r, 0)| && sampled == SubDict(d, Visited(g, r, 0))
  {
    VisitedStart(g, r);
    RoundsBeforeEnd(g, r);
  }

  lemma RoundDone(d: Detections, g: seq<seq<string>>, cats: seq<string>, lists: map<string, seq<string>>,
                  sampled: Detections, samples: int, maxDisplay: int, r: nat)
    requires r < Longest(g) && Remaining(lists, g, cats, r, |g|) && samples <= maxDisplay
    requires samples == |Visited(g, r, |g|)| && sampled == SubDict(d, Visited(g, r, |g|))
    ensures Sampling(d, g, cats, lists, sampled, samples, maxDisplay, r + 1)
  {
    NextRound(g, r);
    RemainingRound(lists, g, cats, r);
    VisitedStart(g, r + 1);
  }

  lemma SamplingStart(d: Detections, g: seq<seq<string>>, cats: seq<string>, lists: map<string, seq<string>>, maxDisplay: int)
    requires Remaining(lists, g, cats, 0, 0)
    ensures Sampling(d, g, cats, lists, Detections([], map[]), 0, maxDisplay, 0)
  {
  }

  lemma SamplingEnd(d: Detections, g: seq<seq<string>>, cats: seq<string>, lists: map<string, seq<string>>,
                    sampled: Detections, samples: int, maxDisplay: int, r: nat)
    requires Sampling(d, g, cats, lists, sampled, samples, maxDisplay, r) && maxDisplay <= samples && maxDisplay < |RoundRobin(g)|
    ensures sampled == SubDict(d, RoundRobin(g)[..if maxDisplay < 0 then 0 else maxDisplay])
  {
    VisitedStart(g, r);
    SampledPrefix(d, g, r, 0, sampled, samples);
  }

  /** The sampling loop of `get_survey_sample`: rounds over the sorted categories until
      `maxDisplay` keys are taken. `g` and `cats` are the lists and the sorted categories the
      buckets stand for. */
  method PickRounds(d: Detections, categories: Buckets, maxDisplay: int, ghost g: seq<seq<string>>, ghost cats: seq<string>)
    returns (sampled: Detections)
    requires Drawn(d, RoundRobin(g)) && maxDisplay < |RoundRobin(g)|
    requires Sort(categories.order) == cats && Distinct(cats)
    requires Remaining(categories.lists, g, cats, 0, 0)
    ensures sampled == SubDict(d, RoundRobin(g)[..if maxDisplay < 0 then 0 else maxDisplay])
  {
    var lists := categories.lists;
    var samples := 0;
    sampled := Detections([], map[]);
    ghost var r: nat := 0;
    SamplingStart(d, g, cats, lists, maxDisplay);
    while samples < maxDisplay
      invariant Sampling(d, g, cats, lists, sampled, samples, maxDisplay, r)
      decreases Longest(g) - r
    {
      var sortedCategories := Sort(categories.order);
      var stop;
      lists, sampled, samples, stop := SampleRound(d, sortedCategories, lists, sampled, samples, maxDisplay, g, r);
      if stop {
        return;
      }
      r := r + 1;
    }
    SamplingEnd(d, g, cats, lists, sampled, samples, maxDisplay, r);
  }

  /** A sample taken in round-robin order holds the first keys of the whole order. */
  lemma SampledPrefix(d: Detections, g: seq<seq<string>>, r: nat, j: nat, sampled: Detections, m: int)
    requires j <= |g| && (r < Longest(g) || (r == Longest(g) && j == 0))
    requires sampled == SubDict(d, Visited(g, r, j)) && m == |Visited(g, r, j)|
    ensures m <= |RoundRobin(g)| && sampled == SubDict(d, RoundRobin(g)[..m])
  {
    VisitedPrefix(g, r, j);
  }

  /** `get_survey_sample`: all the detections when they fit, otherwise the round-robin
      sample over the sorted categories; a detection without a `category` raises `KeyError`
      once sampling is needed. */
  method GetSurveySample(d: Detections, maxDisplay: int) returns (r: Result<Detections, PyError>)
    requires WellFormed(d)
    ensures |d.keys| <= maxDisplay ==> r == Ok(d)
    ensures |d.keys| > maxDisplay ==> (r.Err? <==> !HasCategories(d))
    ensures r.Err? ==> r.error == KeyError
    ensures r.Ok? && |d.keys| > maxDisplay ==> HasCategories(d) && r.value == Sample(d, maxDisplay)
  {
    if |d.keys| <= maxDisplay {
      return Ok(d);
    }
    var grouped := GroupByCategory(d);
    if grouped.Err? {
      return Err(grouped.error);
    }
    PickSetup(d, grouped.value);
    var sampled := PickRounds(d, grouped.value, maxDisplay, Grouped(d), Categories(d));
    return Ok(sampled);
  }

  // ---- the survey page's session state

  /** A value held in the page's session state, as far as its truth value matters: a
      widget's text, a checkbox's tick, a flag, or a container known by its size. */
  datatype Value = NoneValue | BoolValue(b: bool) | IntValue(i: int) | StrValue(s: string) | Container(size: nat)

  /** Python's truth value: `None`, `False`, `0`, `""` and empty containers are false. */
  predicate Truthy(v: Value) {
    match v
    case NoneValue => false
    case BoolValue(b) => b
    case IntValue(i) => i != 0
    case StrValue(s) => s != ""
    case Container(n) => n > 0
  }

  /** The key order after `session[k] = v`: a new key goes last, an existing one stays put. */
  function Registered(ks: seq<string>, k: string): (r: seq<string>)
    ensures Distinct(ks) ==> Distinct(r)
    ensures forall x :: x in r <==> x in ks || x == k
  {
    if k in ks then ks else ks + [k]
  }

  const SelectionsFixed := "user_selections_fixed"
  const DisableSelections := "disable_user_selections"
  const CheckboxPrefix := "checkbox_"

  /** The page's session state: its entries in insertion order, and the two sets of
      detection keys the participant ticked and left unticked. */
  class Session {
    var keys: seq<string>
    var values: map<string, Value>
    var userSelections: set<string>
    var userNonSelections: set<string>

    ghost predicate Valid()
      reads this
    {
      Distinct(keys) && forall k :: k in values <==> k in keys
    }

    /** The session as the page's widgets left it, with both selection sets still empty. */
    constructor (keys: seq<string>, values: map<string, Value>)
      requires Distinct(keys)
      requires forall k :: k in values <==> k in keys
      ensures Valid()
      ensures this.keys == keys && this.values == values
      ensures userSelections == {} && userNonSelections == {}
    {
      this.keys := keys;
      this.values := values;
      userSelections := {};
      userNonSelections := {};
    }

    /** `st.session_state[k] = v` */
    method Set(k: string, v: Value)
      requires Valid()
      modifies this
      ensures Valid()
      ensures keys == Registered(old(keys), k)
      ensures values == old(values)[k := v]
      ensures userSelections == old(userSelections) && userNonSelections == old(userNonSelections)
    {
      keys := Registered(keys, k);
      values := values[k := v];
    }

    /** `validate_reasoning`: `varName` is set to whether some reasoning text area, a key
        `<prefix>_..._<suffix>`, is still empty; the scan stops at the first such one. */
    method ValidateReasoning(prefix: string, suffix: string, varName: string)
      requires Valid()
      modifies this
      ensures Valid()
      ensures keys == Registered(old(keys), varName)
      ensures values == old(values)[varName := BoolValue(MissingReasoning(old(keys), old(values), prefix, suffix))]
      ensures userSelections == old(userSelections) && userNonSelections == old(userNonSelections)
    {
      for i := 0 to |keys|
        invariant !MissingReasoning(keys[..i], values, prefix, suffix)
      {
        var k := keys[i];
        assert keys[..i + 1] == keys[..i] + [k];
        if IsReasoningKey(k, prefix, suffix) && !Truthy(values[k]) {
          assert k in keys;
          Set(varName, BoolValue(true));
          return;
        }
      }
      assert keys[..|keys|] == keys;
      Set(varName, BoolValue(false));
    }

    /** `fix_user_selections`: both flags are raised, then the detection key of every
        checkbox goes into the selections when it is ticked and into the non-selections
        when it is not. */
    method FixUserSelections()
      requires Valid()
      modifies this
      ensures Valid()
      ensures keys == Registered(Registered(old(keys), SelectionsFixed), DisableSelections)
      ensures values == old(values)[SelectionsFixed := BoolValue(true)][DisableSelections := BoolValue(true)]
      ensures userSelections == old(userSelections) + Picked(keys, values, true)
      ensures userNonSelections == old(userNonSelections) + Picked(keys, values, false)
    {
      Set(SelectionsFixed, BoolValue(true));
      Set(DisableSelections, BoolValue(true));
      var ticked, unticked := SortCheckboxes(keys, values);
      userSelections, userNonSelections := userSelections + ticked, userNonSelections + unticked;
    }
  }

  /** The loop of `fix_user_selections` over the session's entries: the detection key of
      each checkbox, by whether it is ticked. */
  method SortCheckboxes(ks: seq<string>, vals: map<string, Value>) returns (ticked: set<string>, unticked: set<string>)
    requires forall k :: k in ks ==> k in vals
    ensures ticked == Picked(ks, vals, true)
    ensures unticked == Picked(ks, vals, false)
  {
    ticked, unticked := {}, {};
    for i := 0 to |ks|
      invariant ticked == Picked(ks[..i], vals, true)
      invariant unticked == Picked(ks[..i], vals, false)
    {
      var k := ks[i];
      assert ks[..i + 1] == ks[..i] + [k];
      PickedStep(ks[..i], k, vals, true);
      PickedStep(ks[..i], k, vals, false);
      if StartsWith(k, CheckboxPrefix) {
        var part := KeyPart(k);
        if Truthy(vals[k]) {
          ticked := ticked + {part};
        } else {
          unticked := unticked + {part};
        }
      }
    }
    assert ks[..|ks|] == ks;
  }

  /** The key of a reasoning text area: `<prefix>_` in front and `_<suffix>` behind. */
  predicate IsReasoningKey(k: string, prefix: string, suffix: string) {
    StartsWith(k, prefix + "_") && EndsWith(k, "_" + suffix)
  }

  /** Some reasoning text area among `ks` is still empty. */
  ghost predicate MissingReasoning(ks: seq<string>, vals: map<string, Value>, prefix: string, suffix: string) {
    exists k :: k in ks && k in vals && IsReasoningKey(k, prefix, suffix) && !Truthy(vals[k])
  }

  /** The text area the page draws for detection `key` is one `validate_reasoning` checks. */
  lemma ReasoningKeyMatches(key: string, prefix: string, suffix: string)
    ensures IsReasoningKey(prefix + "_" + key + "_" + suffix, prefix, suffix)
  {
    var k := prefix + "_" + key + "_" + suffix;
    assert k[..|prefix + "_"|] == prefix + "_";
    assert k[|k| - |"_" + suffix|..] == "_" + suffix;
  }

  /** The check for the necessary reasons never looks at a text area for the unnecessary
      ones, although `_unnecessary` ends in `necessary`. */
  lemma NecessaryIgnoresUnnecessary(key: string)
    ensures !IsReasoningKey("reasoning_" + key + "_unnecessary", "reasoning", "necessary")
  {
    var k := "reasoning_" + key + "_unnecessary";
    assert k[|k| - 10] == 'n';
  }

  /** An empty text area blocks the step, and once every one holds text the step is open. */
  lemma ReasoningBlocks(ks: seq<string>, vals: map<string, Value>, prefix: string, suffix: string)
    ensures (exists k :: k in ks && k in vals && IsReasoningKey(k, prefix, suffix) && vals[k] == StrValue(""))
      ==> MissingReasoning(ks, vals, prefix, suffix)
    ensures (forall k :: k in ks && k in vals && IsReasoningKey(k, prefix, suffix) ==> vals[k].StrValue? && vals[k].s != "")
      ==> !MissingReasoning(ks, vals, prefix, suffix)
  {
  }

  /** `key.split("_")[1]` on a checkbox key `checkbox_<detection key>`: the detection key up
      to its first underscore, and the whole of it when it has none. */
  function KeyPart(key: string): (part: string)
    requires StartsWith(key, CheckboxPrefix)
    ensures part == Split(key[|CheckboxPrefix|..], '_')[0]
    ensures '_' !in key[|CheckboxPrefix|..] ==> part == key[|CheckboxPrefix|..]
  {
    var rest := key[|CheckboxPrefix|..];
    assert key == "checkbox" + ['_'] + rest;
    SplitAfter("checkbox", '_', rest);
    if '_' !in rest then SplitWithout(rest, '_'); Split(key, '_')[1] else Split(key, '_')[1]
  }

  /** The detection keys of the checkboxes among `ks` whose tick is `checked`. */
  function Picked(ks: seq<string>, vals: map<string, Value>, checked: bool): set<string> {
    if ks == [] then {}
    else
      var k := ks[|ks| - 1];
      Picked(ks[..|ks| - 1], vals, checked) +
        if StartsWith(k, CheckboxPrefix) && k in vals && Truthy(vals[k]) == checked then {KeyPart(k)} else {}
  }

  lemma PickedStep(ks: seq<string>, k: string, vals: map<string, Value>, checked: bool)
    ensures Picked(ks + [k], vals, checked) == Picked(ks, vals, checked) +
      if StartsWith(k, CheckboxPrefix) && k in vals && Truthy(vals[k]) == checked then {KeyPart(k)} else {}
  {
    assert (ks + [k])[..|ks|] == ks;
  }

  lemma {:induction false} PickedSpec(ks: seq<string>, vals: map<string, Value>, checked: bool, x: string)
    ensures x in Picked(ks, vals, checked) <==>
      exists k :: k in ks && StartsWith(k, CheckboxPrefix) && k in vals && Truthy(vals[k]) == checked && KeyPart(k) == x
  {
    if ks != [] {
      PickedSpec(ks[..|ks| - 1], vals, checked, x);
      assert ks == ks[..|ks| - 1] + [ks[|ks| - 1]];
    }
  }

  /** When no detection key holds an underscore, every checkbox of the session puts its
      detection key in exactly one of the two sets. */
  lemma SelectionsPartition(ks: seq<string>, vals: map<string, Value>, x: string)
    requires forall k :: k in ks && StartsWith(k, CheckboxPrefix) ==> '_' !in k[|CheckboxPrefix|..]
    requires (CheckboxPrefix + x) in ks && (CheckboxPrefix + x) in vals && '_' !in x
    ensures x in Picked(ks, vals, Truthy(vals[CheckboxPrefix + x]))
    ensures x !in Picked(ks, vals, !Truthy(vals[CheckboxPrefix + x]))
  {
    var c := CheckboxPrefix + x;
    assert c[|CheckboxPrefix|..] == x;
    PickedSpec(ks, vals, Truthy(vals[c]), x);
    PickedSpec(ks, vals, !Truthy(vals[c]), x);
    forall k | k in ks && StartsWith(k, CheckboxPrefix) && k in vals && KeyPart(k) == x
      ensures k == c
    {
      assert k == CheckboxPrefix + k[|CheckboxPrefix|..];
    }
  }
}
