/**
 * The "seen" report of watchReels (api/InstagramAPI.kt:1281-1308): the
 * stories are sorted by the text of their `taken_at`, newest first, and each
 * gets a seen-at time a second or two apart, counted back from now.
 */
module Reels {
  import opened Wrappers
  import opened Strings
  import opened Json

  /** A story object: the fields watchReels reads (`user` is the nested object, when present). */
  datatype Story = Story(id: Option<Scalar>, takenAt: Option<Scalar>, user: Option<map<string, Scalar>>)

  // ---------------------------------------------------------------------
  // String order (Kotlin `String.compareTo`, char by char)

  /** `a <= b` in lexicographic order. */
  predicate LexLe(a: string, b: string) {
    a == [] || (b != [] && (a[0] < b[0] || (a[0] == b[0] && LexLe(a[1..], b[1..]))))
  }

  lemma {:induction false} LexReflexive(a: string)
    ensures LexLe(a, a)
  {
    if a != [] {
      LexReflexive(a[1..]);
    }
  }

  lemma {:induction false} LexTotal(a: string, b: string)
    ensures LexLe(a, b) || LexLe(b, a)
  {
    if a != [] && b != [] && a[0] == b[0] {
      LexTotal(a[1..], b[1..]);
    }
  }

  lemma {:induction false} LexTransitive(a: string, b: string, c: string)
    requires LexLe(a, b) && LexLe(b, c)
    ensures LexLe(a, c)
  {
    if a != [] && a[0] == b[0] && b[0] == c[0] {
      LexTransitive(a[1..], b[1..], c[1..]);
    }
  }

  lemma {:induction false} LexAntisymmetric(a: string, b: string)
    requires LexLe(a, b) && LexLe(b, a)
    ensures a == b
  {
    if a != [] {
      LexAntisymmetric(a[1..], b[1..]);
      assert a == [a[0]] + a[1..] && b == [b[0]] + b[1..];
    }
  }

  // ---------------------------------------------------------------------
  // sortedByDescending { it.get("taken_at").toString() }

  /** A story with its sort key. */
  type Keyed = (string, Story)

  /** Every story has a `taken_at`: otherwise `get("taken_at")` throws JSONException. */
  predicate AllTaken(reels: seq<Story>) {
    forall i | 0 <= i < |reels| :: reels[i].takenAt.Some?
  }

  function WithKeys(reels: seq<Story>): (r: seq<Keyed>)
    requires AllTaken(reels)
    ensures |r| == |reels|
    ensures forall i | 0 <= i < |r| :: r[i] == (reels[i].takenAt.value.Show(), reels[i])
  {
    seq(|reels|, i requires 0 <= i < |reels| => (reels[i].takenAt.value.Show(), reels[i]))
  }

  /** Newest first: every key is at least every later key. */
  predicate Descending(xs: seq<Keyed>) {
    forall i, j | 0 <= i < j < |xs| :: LexLe(xs[j].0, xs[i].0)
  }

  /** Neighbours in order. */
  predicate AdjacentDescending(xs: seq<Keyed>) {
    forall i | 0 < i < |xs| :: LexLe(xs[i].0, xs[i - 1].0)
  }

  /** The entries with key `k`, in order. */
  function WithKey(xs: seq<Keyed>, k: string): seq<Keyed> {
    if xs == [] then []
    else (if xs[0].0 == k then [xs[0]] else []) + WithKey(xs[1..], k)
  }

  /** Insertion of `x` before the first entry whose key is not above its own. */
  function Insert(x: Keyed, ys: seq<Keyed>): (r: seq<Keyed>)
    ensures |r| == |ys| + 1
  {
    if ys == [] || LexLe(ys[0].0, x.0) then [x] + ys
    else [ys[0]] + Insert(x, ys[1..])
  }

  /** A stable sort by key, newest first (Kotlin's sort is stable). */
  function SortDescending(xs: seq<Keyed>): (r: seq<Keyed>)
    ensures |r| == |xs|
  {
    if xs == [] then [] else Insert(xs[0], SortDescending(xs[1..]))
  }

  lemma {:induction false} InsertHead(x: Keyed, ys: seq<Keyed>)
    ensures Insert(x, ys) != [] && (Insert(x, ys)[0] == x || (ys != [] && Insert(x, ys)[0] == ys[0]))
  {
  }

  lemma {:induction false} InsertAdjacent(x: Keyed, ys: seq<Keyed>)
    requires AdjacentDescending(ys)
    ensures AdjacentDescending(Insert(x, ys))
  {
    if ys != [] && !LexLe(ys[0].0, x.0) {
      LexTotal(ys[0].0, x.0);
      assert AdjacentDescending(ys[1..]) by {
        forall i | 0 < i < |ys[1..]| ensures LexLe(ys[1..][i].0, ys[1..][i - 1].0) {
          assert ys[1..][i] == ys[i + 1] && ys[1..][i - 1] == ys[i];
        }
      }
      InsertAdjacent(x, ys[1..]);
      InsertHead(x, ys[1..]);
      var rest := Insert(x, ys[1..]);
      forall i | 0 < i < |[ys[0]] + rest| ensures LexLe(([ys[0]] + rest)[i].0, ([ys[0]] + rest)[i - 1].0) {
        if i > 1 {
          assert ([ys[0]] + rest)[i] == rest[i - 1] && ([ys[0]] + rest)[i - 1] == rest[i - 2];
        }
      }
    }
  }

  lemma {:induction false} InsertWithKey(x: Keyed, ys: seq<Keyed>, k: string)
    ensures WithKey(Insert(x, ys), k) == (if x.0 == k then [x] else []) + WithKey(ys, k)
  {
    if ys == [] || LexLe(ys[0].0, x.0) {
      assert ([x] + ys)[1..] == ys;
    } else {
      LexReflexive(x.0);
      InsertWithKey(x, ys[1..], k);
      var r := [ys[0]] + Insert(x, ys[1..]);
      assert r[0] == ys[0] && r[1..] == Insert(x, ys[1..]);
    }
  }

  lemma {:induction false} AdjacentIsDescending(xs: seq<Keyed>)
    requires AdjacentDescending(xs)
    ensures Descending(xs)
  {
    forall i, j | 0 <= i < j < |xs| ensures LexLe(xs[j].0, xs[i].0) {
      var k := j;
      LexReflexive(xs[j].0);
      while k > i
        invariant i <= k <= j && LexLe(xs[j].0, xs[k].0)
      {
        LexTransitive(xs[j].0, xs[k].0, xs[k - 1].0);
        k := k - 1;
      }
    }
  }

  /**
   * The sort is newest first, and keeps the stories of equal key in their
   * given order: for every key, the stories under it are exactly those of
   * the input, in the input's order (so it is also a permutation).
   */
  lemma {:induction false} SortIsStable(xs: seq<Keyed>)
    ensures Descending(SortDescending(xs))
    ensures forall k :: WithKey(SortDescending(xs), k) == WithKey(xs, k)
    ensures multiset(SortDescending(xs)) == multiset(xs)
  {
    SortAdjacent(xs);
    AdjacentIsDescending(SortDescending(xs));
    forall k ensures WithKey(SortDescending(xs), k) == WithKey(xs, k) {
      SortWithKey(xs, k);
    }
    SortPermutes(xs);
  }

  lemma {:induction false} SortAdjacent(xs: seq<Keyed>)
    ensures AdjacentDescending(SortDescending(xs))
  {
    if xs != [] {
      SortAdjacent(xs[1..]);
      InsertAdjacent(xs[0], SortDescending(xs[1..]));
    }
  }

  lemma {:induction false} SortWithKey(xs: seq<Keyed>, k: string)
    ensures WithKey(SortDescending(xs), k) == WithKey(xs, k)
  {
    if xs != [] {
      SortWithKey(xs[1..], k);
      InsertWithKey(xs[0], SortDescending(xs[1..]), k);
    }
  }

  lemma {:induction false} InsertPermutes(x: Keyed, ys: seq<Keyed>)
    ensures multiset(Insert(x, ys)) == multiset{x} + multiset(ys)
  {
    if ys != [] && !LexLe(ys[0].0, x.0) {
      InsertPermutes(x, ys[1..]);
      assert ys == [ys[0]] + ys[1..];
    }
  }

  lemma {:induction false} SortPermutes(xs: seq<Keyed>)
    ensures multiset(SortDescending(xs)) == multiset(xs)
  {
    if xs != [] {
      SortPermutes(xs[1..]);
      InsertPermutes(xs[0], SortDescending(xs[1..]));
      assert xs == [xs[0]] + xs[1..];
    }
  }

  /** The order is that of the text, not of the number: 9 sorts before 10. */
  lemma TextOrderNotNumeric(a: Story, b: Story)
    requires a.takenAt == Some(Number(10)) && b.takenAt == Some(Number(9))
    ensures SortDescending(WithKeys([a, b])) == [("9", b), ("10", a)]
  {
    var xs := WithKeys([a, b]);
    assert Decimal(10) == Decimal(1) + [DigitChar(0)] == "10";
    assert Decimal(9) == "9";
    assert xs == [("10", a), ("9", b)];
    assert !LexLe("9", "10");
    assert LexLe("10", "9");
    assert xs[1..][1..] == [];
    assert SortDescending(xs[1..]) == Insert(("9", b), []) == [("9", b)];
    assert Insert(("10", a), [("9", b)]) == [("9", b)] + Insert(("10", a), []);
  }

  // ---------------------------------------------------------------------
  // Seen-at times

  /**
   * `now - min(index + 1 + jitter, max(0, now - takenAt))`, `jitter` being
   * `Random.nextLong(0, 2)`; `now - takenAt` is a Long subtraction and wraps.
   */
  function SeenAt(now: int, index: nat, jitter: int, takenAt: int): int {
    var back := index + 1 + jitter;
    var diff := Wrap(now - takenAt);
    var age := if diff > 0 then diff else 0;
    now - (if back < age then back else age)
  }

  /** The clock as written: `System.currentTimeMillis()`, in milliseconds. */
  function StoryClockAsWritten(nowMillis: int): int {
    nowMillis
  }

  /** The clock `taken_at` is measured in: seconds. */
  function StoryClock(nowMillis: int): int {
    nowMillis / 1000
  }

  /**
   * In seconds, a story is seen no earlier than it was taken, and no later
   * than now; when it is not from the future, at most `index + 2` seconds
   * before now.
   */
  lemma SeenAtBounds(nowMillis: int, index: nat, jitter: int, takenAt: int)
    requires 0 <= jitter <= 1
    requires 0 <= nowMillis <= LONG_MAX && LONG_MIN <= takenAt <= LONG_MAX
    ensures var now := StoryClock(nowMillis);
            var r := SeenAt(now, index, jitter, takenAt);
            r <= now && r >= now - (index + 2) &&
            (takenAt <= now ==> takenAt <= r) &&
            (takenAt >= now ==> r == now)
  {
  }

  /**
   * With the millisecond clock, a story taken in the past (in seconds) is
   * reported as seen long after the present second.
   */
  lemma MillisClockOvershoots(nowMillis: int, index: nat, jitter: int, takenAt: int)
    requires 0 <= jitter <= 1 && 0 <= takenAt <= nowMillis / 1000
    requires 1000 * (index + 2) <= nowMillis <= LONG_MAX
    ensures SeenAt(StoryClockAsWritten(nowMillis), index, jitter, takenAt) > nowMillis / 1000
  {
  }

  /**
   * A `taken_at` of Long.MIN_VALUE makes `now - taken_at` wrap to a negative
   * Long, so the story is reported seen exactly now.
   */
  lemma OldestWrapsToNow(now: int, index: nat, jitter: int)
    requires 0 <= now <= LONG_MAX && 0 <= jitter <= 1
    ensures SeenAt(now, index, jitter, LONG_MIN) == now
  {
    assert Wrap(now - LONG_MIN) == now - LONG_MIN - 0x1_0000_0000_0000_0000;
  }

  // ---------------------------------------------------------------------
  // The report

  /** `"${story.get("id")}_${story.read<JSONObject>("$.user")?.get("pk").toString()}"`; None where `get` throws. */
  function StoryKey(s: Story): Option<string> {
    if s.id.None? then None
    else if s.user.Some? && "pk" !in s.user.value then None
    else Some(s.id.value.Show() + "_" + (if s.user.Some? then s.user.value["pk"].Show() else "null"))
  }

  /**
   * The entry of the story at `index`, or the exception it makes watchReels
   * throw: `toLong()` of a non-numeric `taken_at`, then `get` of a missing id
   * or `pk`.
   */
  function Entry(now: int, index: nat, jitter: int, s: Story): Result<(string, seq<string>)> {
    if s.takenAt.None? then Failure("JSONException")
    else
      var text := s.takenAt.value.Show();
      match ParseLong(text)
      case None => Failure("NumberFormatException")
      case Some(t) =>
        match StoryKey(s)
        case None => Failure("JSONException")
        case Some(key) => Success((key, [text + "_" + Decimal(SeenAt(now, index, jitter, t))]))
  }

  /** The entries of the sorted stories, one per index. */
  function Entries(now: int, xs: seq<Keyed>, jitters: seq<int>): (r: seq<Result<(string, seq<string>)>>)
    requires |xs| <= |jitters|
    ensures |r| == |xs|
    ensures forall i | 0 <= i < |xs| :: r[i] == Entry(now, i, jitters[i], xs[i].1)
  {
    seq(|xs|, i requires 0 <= i < |xs| => Entry(now, i, jitters[i], xs[i].1))
  }

  /** The first `k` entries put into an insertion-ordered map, or the exception of the first entry that throws. */
  function Report(es: seq<Result<(string, seq<string>)>>, k: nat): Result<seq<(string, seq<string>)>>
    requires k <= |es|
  {
    if k == 0 then Success([])
    else
      match Report(es, k - 1)
      case Failure(x) => Failure(x)
      case Success(seen) =>
        match es[k - 1]
        case Failure(x) => Failure(x)
        case Success(e) => Success(Put(seen, e.0, e.1))
  }

  /**
   * The loop of watchReels over the sorted stories, or the exception it throws.
   * `jitters[i]` is the random 0 or 1 drawn for the i-th story.
   */
  method SeenReport(now: int, sorted: seq<Keyed>, jitters: seq<int>) returns (r: Result<seq<(string, seq<string>)>>)
    requires |sorted| <= |jitters|
    ensures r == Report(Entries(now, sorted, jitters), |sorted|)
  {
    ghost var es := Entries(now, sorted, jitters);
    var seen: seq<(string, seq<string>)> := [];
    var i := 0;
    while i < |sorted|
      invariant 0 <= i <= |sorted|
      invariant Report(es, i) == Success(seen)
    {
      var e := Entry(now, i, jitters[i], sorted[i].1);
      assert es[i] == e;
      if e.Failure? {
        ReportStaysThrown(es, i + 1, |sorted|);
        return Failure(e.exception);
      }
      assert Report(es, i + 1) == Success(Put(seen, e.value.0, e.value.1));
      seen := Put(seen, e.value.0, e.value.1);
      i := i + 1;
    }
    return Success(seen);
  }

  /** Once an entry throws, every longer run throws the same exception. */
  lemma {:induction false} ReportStaysThrown(es: seq<Result<(string, seq<string>)>>, i: nat, k: nat)
    requires i <= k <= |es|
    ensures Report(es, i).Failure? ==> Report(es, k) == Report(es, i)
    decreases k
  {
    if i < k {
      ReportStaysThrown(es, i, k - 1);
    }
  }

  /** A key put into the report stays there through every later entry. */
  lemma {:induction false} ReportKeepsKey(es: seq<Result<(string, seq<string>)>>, i: nat, k: nat, key: string)
    requires i <= k <= |es| && Report(es, k).Success?
    requires Report(es, i).Success? && Lookup(Report(es, i).value, key).Some?
    ensures Lookup(Report(es, k).value, key).Some?
    decreases k
  {
    if i < k {
      var prev := Report(es, k - 1);
      assert prev.Success? && es[k - 1].Success?;
      ReportKeepsKey(es, i, k - 1, key);
      LookupPut(prev.value, es[k - 1].value.0, es[k - 1].value.1, key);
    }
  }

  /** A report that was built has an entry under the key of every story in it. */
  lemma ReportHasEveryEntry(es: seq<Result<(string, seq<string>)>>, i: nat)
    requires i < |es| && Report(es, |es|).Success?
    ensures es[i].Success? && Lookup(Report(es, |es|).value, es[i].value.0).Some?
  {
    ReportStaysThrown(es, i + 1, |es|);
    var e := es[i].value;
    LookupPut(Report(es, i).value, e.0, e.1, e.0);
    ReportKeepsKey(es, i + 1, |es|, e.0);
  }

  /** An entry is filed under its story's key. */
  lemma EntryKey(now: int, index: nat, jitter: int, s: Story)
    ensures Entry(now, index, jitter, s).Success? ==>
              StoryKey(s) == Some(Entry(now, index, jitter, s).value.0) && s.takenAt.Some? &&
              ParseLong(s.takenAt.value.Show()).Some?
  {
  }

  /**
   * With the clock in seconds, an entry of the report reads `taken_at_seenAt`,
   * the seen-at time lying between `index + 2` seconds before now and now, and
   * no earlier than the story was taken.
   */
  lemma CorrectedEntrySeenAt(nowMillis: int, index: nat, jitter: int, s: Story)
    requires 0 <= jitter <= 1 && 0 <= nowMillis <= LONG_MAX
    requires Entry(StoryClock(nowMillis), index, jitter, s).Success?
    ensures var now := StoryClock(nowMillis);
            var text := s.takenAt.value.Show();
            var r := SeenAt(now, index, jitter, ParseLong(text).value);
            Entry(now, index, jitter, s).value.1 == [text + "_" + Decimal(r)] &&
            now - (index + 2) <= r <= now &&
            (ParseLong(text).value <= now ==> ParseLong(text).value <= r)
  {
    SeenAtBounds(nowMillis, index, jitter, ParseLong(s.takenAt.value.Show()).value);
  }

  /**
   * watchReels' report, or the exception it throws: every story must have a
   * `taken_at` (JSONException), read as a Long (NumberFormatException), an id
   * and, when it has a `user` object, a `pk` (JSONException). The seen-at
   * times count back from the clock as written, in milliseconds.
   */
  function WatchReport(nowMillis: int, reels: seq<Story>, jitters: seq<int>): Result<seq<(string, seq<string>)>>
    requires |reels| <= |jitters|
  {
    ReportAt(StoryClockAsWritten(nowMillis), reels, jitters)
  }

  /** The report with the seen-at times counted back from the present second. */
  function WatchReportCorrected(nowMillis: int, reels: seq<Story>, jitters: seq<int>): Result<seq<(string, seq<string>)>>
    requires |reels| <= |jitters|
  {
    ReportAt(StoryClock(nowMillis), reels, jitters)
  }

  /**
   * A corrected report that was built files the `i`-th newest story under its
   * key, with a seen-at time between `i + 2` seconds before now and now, and
   * no earlier than the story was taken.
   */
  lemma CorrectedReportTimes(nowMillis: int, reels: seq<Story>, jitters: seq<int>, i: nat)
    requires |reels| <= |jitters| && i < |reels| && 0 <= jitters[i] <= 1 && 0 <= nowMillis <= LONG_MAX
    requires WatchReportCorrected(nowMillis, reels, jitters).Success?
    ensures var now := StoryClock(nowMillis);
            var s := SortDescending(WithKeys(reels))[i].1;
            var e := Entry(now, i, jitters[i], s);
            e.Success? && Lookup(WatchReportCorrected(nowMillis, reels, jitters).value, e.value.0).Some? &&
            var t := ParseLong(s.takenAt.value.Show()).value;
            now - (i + 2) <= SeenAt(now, i, jitters[i], t) <= now &&
            (t <= now ==> t <= SeenAt(now, i, jitters[i], t))
  {
    var now := StoryClock(nowMillis);
    var sorted := SortDescending(WithKeys(reels));
    var es := Entries(now, sorted, jitters);
    ReportHasEveryEntry(es, i);
    CorrectedEntrySeenAt(nowMillis, i, jitters[i], sorted[i].1);
  }

  /** The report of the stories with the clock reading `now`. */
  function ReportAt(now: int, reels: seq<Story>, jitters: seq<int>): Result<seq<(string, seq<string>)>>
    requires |reels| <= |jitters|
  {
    if !AllTaken(reels) then Failure("JSONException")
    else
      var sorted := SortDescending(WithKeys(reels));
      Report(Entries(now, sorted, jitters), |sorted|)
  }
}
