/**
 * The cursor loops that page through Instagram feeds (InstagramAPI.kt's
 * getTotalFollowersOrFollowings, getLastUserFeed, getTotalHashTagMedia,
 * getTotalHashTagUsers, getTotalLikedMedia, and InstagramBot.kt's
 * getTimelineMedias, getMediaComments and getMediaCommenter).
 *
 * All of them follow one shape: request a page with the current
 * `next_max_id`, walk its array(s), emit and count, stop once the counter
 * reaches the amount, stop when the page says there is no more, and read the
 * cursor of the next request. They differ in a few switches (a `Loop`) and in
 * what they do with each element (a visit function). The server side is a
 * sequence of pages: page k is the reply to the k-th request.
 */
module Pagination {
  import opened Wrappers
  import opened Strings
  import opened Json

  /** How `next_max_id` becomes the cursor of the following request. */
  datatype CursorRead =
    | StringOrNull    // read<String>(...).toString(): the text "null" when absent
    | IntOrNull       // read<Int>(...).toString(): the text "null" when absent
    | StringRequired  // read<String>(...)!!: NullPointerException when absent
    | StringOrKeep    // read<String>(...)?.let { nextMaxId = it }: keeps the old cursor

  /** The switches in which the loops differ. */
  datatype Loop = Loop(
    ignoresFetch: bool,   // reads the page even when the request reported failure
    needsItems: bool,     // stops when the page has no `items` array
    readsRanked: bool,    // walks `ranked_items` before `items`
    cursor: CursorRead
  )

  /**
   * One reply, as the loop reads it: whether the request reported success, the
   * `ranked_items` and main arrays (None when absent), the continuation flag
   * (`more_available`, `big_list` or `has_more_comments`) and `next_max_id`.
   */
  datatype Page<I> = Page(fetched: bool, ranked: Option<seq<I>>, items: Option<seq<I>>,
                          more: Option<bool>, next: Option<Scalar>)

  /** What a loop does with one element: skip it, count it (emitting a value or not), or throw. */
  datatype Visit<O> = Skip | Count(emitted: Option<O>) | Fail

  /** How the flow ended: `return@flow`, an exception, or the modelled pages ran out. */
  datatype End = Finished | Thrown | Exhausted

  /** What a run produced: the emitted values, the cursor of every request sent, and how it ended. */
  datatype Walk<O> = Walk(out: seq<O>, cursors: seq<string>, end: End)

  function Max(a: int, b: int): int {
    if a < b then b else a
  }

  function Last(cursors: seq<string>): string {
    if cursors == [] then "" else cursors[|cursors| - 1]
  }

  function Emitted<O>(e: Option<O>): seq<O> {
    match e
    case None => []
    case Some(o) => [o]
  }

  /** The cursor for the next request; None where reading it throws. */
  function NextCursor(read: CursorRead, next: Option<Scalar>, previous: string): (r: Option<string>)
    ensures r.None? <==> read == StringRequired && (next.None? || next.value.AsString().None?)
    ensures read == StringOrKeep && (next.None? || next.value.Text?) ==> r == Some(if next.Some? then next.value.s else previous)
  {
    var text := if next.Some? then next.value.AsString() else None;
    match read
    case StringOrNull => Some(ShowOrNull(text))
    case IntOrNull =>
      var n := if next.Some? then next.value.AsInt() else None;
      Some(if n.Some? then Decimal(n.value) else "null")
    case StringRequired => if text.Some? then Some(text.value) else None
    case StringOrKeep => Some(text.GetOr(previous))
  }

  /** The elements a loop walks on one page, in order. */
  function PageItems<I>(loop: Loop, page: Page<I>): seq<I> {
    (if loop.readsRanked then page.ranked.GetOr([]) else []) + page.items.GetOr([])
  }

  /** Whether the loop walks the page at all (rather than ending there). */
  predicate Walks<I>(loop: Loop, page: Page<I>) {
    (page.fetched || loop.ignoresFetch) && !(loop.needsItems && page.items.None?)
  }

  function Progress<I>(loop: Loop, pages: seq<Page<I>>, p: nat, i: nat): int {
    if p < |pages| then |PageItems(loop, pages[p])| - i else 0
  }

  /**
   * The run from request `p`, element `i` of its page, with `counter` elements
   * counted, `out` emitted and `cursors` sent so far (the last one is the
   * cursor of request `p`).
   */
  function Run<I, O>(loop: Loop, visit: I -> Visit<O>, limit: int, pages: seq<Page<I>>,
                     p: nat, i: nat, counter: int, out: seq<O>, cursors: seq<string>): Walk<O>
    decreases |pages| - p, Progress(loop, pages, p, i)
  {
    if p >= |pages| then Walk(out, cursors, Exhausted)
    else if !Walks(loop, pages[p]) then Walk(out, cursors, Finished)
    else
      var all := PageItems(loop, pages[p]);
      if i < |all| then
        match visit(all[i])
        case Skip => Run(loop, visit, limit, pages, p, i + 1, counter, out, cursors)
        case Fail => Walk(out, cursors, Thrown)
        case Count(e) =>
          if counter + 1 >= limit then Walk(out + Emitted(e), cursors, Finished)
          else Run(loop, visit, limit, pages, p, i + 1, counter + 1, out + Emitted(e), cursors)
      else if pages[p].more == Some(false) then Walk(out, cursors, Finished)
      else
        match NextCursor(loop.cursor, pages[p].next, Last(cursors))
        case None => Walk(out, cursors, Thrown)
        case Some(c) => Run(loop, visit, limit, pages, p + 1, 0, counter, out, cursors + [c])
  }

  /** The run of a whole loop: the first request carries the empty cursor. */
  function Start<I, O>(loop: Loop, visit: I -> Visit<O>, limit: int, pages: seq<Page<I>>): Walk<O> {
    Run(loop, visit, limit, pages, 0, 0, 0, [], [""])
  }

  /** The loop itself: one request per iteration, one element per inner iteration. */
  method Paginate<I, O>(loop: Loop, visit: I -> Visit<O>, limit: int, pages: seq<Page<I>>) returns (w: Walk<O>)
    ensures w == Start(loop, visit, limit, pages)
  {
    var p := 0;
    var counter := 0;
    var out: seq<O> := [];
    var cursors := [""];
    while p < |pages|
      invariant p <= |pages|
      invariant Run(loop, visit, limit, pages, p, 0, counter, out, cursors) == Start(loop, visit, limit, pages)
      decreases |pages| - p
    {
      var page := pages[p];
      if !Walks(loop, page) {
        return Walk(out, cursors, Finished);
      }
      var all := PageItems(loop, page);
      var i := 0;
      while i < |all|
        invariant i <= |all|
        invariant Run(loop, visit, limit, pages, p, i, counter, out, cursors) == Start(loop, visit, limit, pages)
        decreases |all| - i
      {
        var v := visit(all[i]);
        if v.Fail? {
          return Walk(out, cursors, Thrown);
        }
        if v.Count? {
          out := out + Emitted(v.emitted);
          counter := counter + 1;
          if counter >= limit {
            return Walk(out, cursors, Finished);
          }
        }
        i := i + 1;
      }
      if page.more == Some(false) {
        return Walk(out, cursors, Finished);
      }
      var c := NextCursor(loop.cursor, page.next, Last(cursors));
      if c.None? {
        return Walk(out, cursors, Thrown);
      }
      cursors := cursors + [c.value];
      p := p + 1;
    }
    return Walk(out, cursors, Exhausted);
  }

  // ---------------------------------------------------------------------------
  // Properties of every loop
  // ---------------------------------------------------------------------------

  /** A run only appends to what was emitted before. */
  lemma {:induction false} OutGrows<I, O>(loop: Loop, visit: I -> Visit<O>, limit: int, pages: seq<Page<I>>,
                                          p: nat, i: nat, counter: int, out: seq<O>, cursors: seq<string>)
    ensures out <= Run(loop, visit, limit, pages, p, i, counter, out, cursors).out
    decreases |pages| - p, Progress(loop, pages, p, i)
  {
    if p < |pages| && Walks(loop, pages[p]) {
      var all := PageItems(loop, pages[p]);
      if i < |all| {
        match visit(all[i])
        case Skip => OutGrows(loop, visit, limit, pages, p, i + 1, counter, out, cursors);
        case Fail =>
        case Count(e) =>
          if counter + 1 < limit {
            OutGrows(loop, visit, limit, pages, p, i + 1, counter + 1, out + Emitted(e), cursors);
          }
      } else if pages[p].more != Some(false) && NextCursor(loop.cursor, pages[p].next, Last(cursors)).Some? {
        var c := NextCursor(loop.cursor, pages[p].next, Last(cursors)).value;
        OutGrows(loop, visit, limit, pages, p + 1, 0, counter, out, cursors + [c]);
      }
    }
  }

  /** A smaller amount yields a prefix of what a larger amount yields. */
  lemma {:induction false} LimitPrefix<I, O>(loop: Loop, visit: I -> Visit<O>, small: int, large: int,
                                             pages: seq<Page<I>>, p: nat, i: nat, counter: int,
                                             out: seq<O>, cursors: seq<string>)
    requires small <= large
    ensures Run(loop, visit, small, pages, p, i, counter, out, cursors).out
            <= Run(loop, visit, large, pages, p, i, counter, out, cursors).out
    decreases |pages| - p, Progress(loop, pages, p, i)
  {
    if p < |pages| && Walks(loop, pages[p]) {
      var all := PageItems(loop, pages[p]);
      if i < |all| {
        match visit(all[i])
        case Skip => LimitPrefix(loop, visit, small, large, pages, p, i + 1, counter, out, cursors);
        case Fail =>
        case Count(e) =>
          if counter + 1 < small {
            LimitPrefix(loop, visit, small, large, pages, p, i + 1, counter + 1, out + Emitted(e), cursors);
          } else if counter + 1 < large {
            OutGrows(loop, visit, large, pages, p, i + 1, counter + 1, out + Emitted(e), cursors);
          }
      } else if pages[p].more != Some(false) && NextCursor(loop.cursor, pages[p].next, Last(cursors)).Some? {
        var c := NextCursor(loop.cursor, pages[p].next, Last(cursors)).value;
        LimitPrefix(loop, visit, small, large, pages, p + 1, 0, counter, out, cursors + [c]);
      }
    }
  }

  /** The loops emit at most the amount asked for, and one element even when the amount is 0 or less. */
  lemma {:induction false} RunBounded<I, O>(loop: Loop, visit: I -> Visit<O>, limit: int, pages: seq<Page<I>>,
                                            p: nat, i: nat, counter: int, out: seq<O>, cursors: seq<string>)
    requires 0 <= counter && |out| <= counter && (counter == 0 || counter < limit)
    ensures |Run(loop, visit, limit, pages, p, i, counter, out, cursors).out| <= Max(limit, 1)
    decreases |pages| - p, Progress(loop, pages, p, i)
  {
    if p < |pages| && Walks(loop, pages[p]) {
      var all := PageItems(loop, pages[p]);
      if i < |all| {
        match visit(all[i])
        case Skip => RunBounded(loop, visit, limit, pages, p, i + 1, counter, out, cursors);
        case Fail =>
        case Count(e) =>
          if counter + 1 < limit {
            RunBounded(loop, visit, limit, pages, p, i + 1, counter + 1, out + Emitted(e), cursors);
          }
      } else if pages[p].more != Some(false) && NextCursor(loop.cursor, pages[p].next, Last(cursors)).Some? {
        var c := NextCursor(loop.cursor, pages[p].next, Last(cursors)).value;
        RunBounded(loop, visit, limit, pages, p + 1, 0, counter, out, cursors + [c]);
      }
    }
  }

  /** Whole runs emit at most max(amount, 1) values, and fewer amounts give prefixes. */
  lemma StartBounded<I, O>(loop: Loop, visit: I -> Visit<O>, small: int, large: int, pages: seq<Page<I>>)
    requires small <= large
    ensures |Start(loop, visit, small, pages).out| <= Max(small, 1)
    ensures Start(loop, visit, small, pages).out <= Start(loop, visit, large, pages).out
  {
    RunBounded(loop, visit, small, pages, 0, 0, 0, [], [""]);
    LimitPrefix(loop, visit, small, large, pages, 0, 0, 0, [], [""]);
  }

  /**
   * The counter is checked only after an element is counted: with an amount
   * of 0 or less, the first counted element is still emitted, and the run ends there.
   */
  lemma NonPositiveAmountEmitsOne<I, O>(loop: Loop, visit: I -> Visit<O>, limit: int, pages: seq<Page<I>>, o: O)
    requires limit <= 0 && pages != [] && Walks(loop, pages[0])
    requires PageItems(loop, pages[0]) != [] && visit(PageItems(loop, pages[0])[0]) == Count(Some(o))
    ensures Start(loop, visit, limit, pages) == Walk([o], [""], Finished)
  {
  }

  /** `o` is what the visit emits for some element of one of the first `n` pages. */
  ghost predicate Produced<I, O>(loop: Loop, visit: I -> Visit<O>, pages: seq<Page<I>>, n: int, o: O) {
    exists q, j | 0 <= q < n && q < |pages| && 0 <= j < |PageItems(loop, pages[q])| ::
      visit(PageItems(loop, pages[q])[j]) == Count(Some(o))
  }

  /**
   * Everything emitted was emitted by the visit of an element of a page the
   * run requested, in particular never by a skipped one.
   */
  lemma {:induction false} RunProduced<I, O>(loop: Loop, visit: I -> Visit<O>, limit: int, pages: seq<Page<I>>,
                                             p: nat, i: nat, counter: int, out: seq<O>, cursors: seq<string>)
    requires |cursors| == p + 1
    requires forall o | o in out :: Produced(loop, visit, pages, |cursors|, o)
    ensures forall o | o in Run(loop, visit, limit, pages, p, i, counter, out, cursors).out ::
              Produced(loop, visit, pages, |Run(loop, visit, limit, pages, p, i, counter, out, cursors).cursors|, o)
    decreases |pages| - p, Progress(loop, pages, p, i)
  {
    if p < |pages| && Walks(loop, pages[p]) {
      var all := PageItems(loop, pages[p]);
      if i < |all| {
        match visit(all[i])
        case Skip => RunProduced(loop, visit, limit, pages, p, i + 1, counter, out, cursors);
        case Fail =>
        case Count(e) =>
          var out' := out + Emitted(e);
          forall o | o in out' ensures Produced(loop, visit, pages, |cursors|, o) {
            if o !in out {
              assert visit(PageItems(loop, pages[p])[i]) == Count(Some(o));
            }
          }
          if counter + 1 < limit {
            RunProduced(loop, visit, limit, pages, p, i + 1, counter + 1, out', cursors);
          }
      } else if pages[p].more != Some(false) && NextCursor(loop.cursor, pages[p].next, Last(cursors)).Some? {
        var c := NextCursor(loop.cursor, pages[p].next, Last(cursors)).value;
        forall o | o in out ensures Produced(loop, visit, pages, |cursors + [c]|, o) {
          var q, j :| 0 <= q < |cursors| && q < |pages| && 0 <= j < |PageItems(loop, pages[q])| &&
                      visit(PageItems(loop, pages[q])[j]) == Count(Some(o));
        }
        RunProduced(loop, visit, limit, pages, p + 1, 0, counter, out, cursors + [c]);
      }
    }
  }

  /** What a whole run emits comes from the pages it requested. */
  lemma StartProduced<I, O>(loop: Loop, visit: I -> Visit<O>, limit: int, pages: seq<Page<I>>)
    ensures forall o | o in Start(loop, visit, limit, pages).out ::
              Produced(loop, visit, pages, |Start(loop, visit, limit, pages).cursors|, o)
  {
    RunProduced(loop, visit, limit, pages, 0, 0, 0, [], [""]);
  }

  // ---------------------------------------------------------------------------
  // The elements of the pages, end to end
  // ---------------------------------------------------------------------------

  /** The elements of `pages` in the order the loop walks them, page after page. */
  function Flat<I>(loop: Loop, pages: seq<Page<I>>): seq<I> {
    if pages == [] then [] else PageItems(loop, pages[0]) + Flat(loop, pages[1..])
  }

  /** The elements from element `i` of page `p` on. */
  function Rest<I>(loop: Loop, pages: seq<Page<I>>, p: nat, i: nat): seq<I> {
    if p < |pages| && i <= |PageItems(loop, pages[p])| then PageItems(loop, pages[p])[i..] + Flat(loop, pages[p + 1..])
    else []
  }

  /** What the visit of one element emits. */
  function Yield<I, O>(visit: I -> Visit<O>, x: I): seq<O> {
    match visit(x)
    case Count(e) => Emitted(e)
    case _ => []
  }

  /** The values the visit emits for `xs`, in order. */
  function Emits<I, O>(visit: I -> Visit<O>, xs: seq<I>): seq<O> {
    if xs == [] then [] else Yield(visit, xs[0]) + Emits(visit, xs[1..])
  }

  /** The number of elements of `xs` the visit counts. */
  function Counts<I, O>(visit: I -> Visit<O>, xs: seq<I>): nat {
    if xs == [] then 0 else (if visit(xs[0]).Count? then 1 else 0) + Counts(visit, xs[1..])
  }

  /** The shortest prefix of `xs` that holds `n` counted elements, or all of `xs` when it holds fewer. */
  function TakeCounted<I, O>(visit: I -> Visit<O>, xs: seq<I>, n: int): seq<I> {
    if xs == [] || n <= 0 then []
    else if visit(xs[0]).Count? then [xs[0]] + TakeCounted(visit, xs[1..], n - 1)
    else [xs[0]] + TakeCounted(visit, xs[1..], n)
  }

  /** The cursor of a page can be read: only `!!` on a missing or non-text `next_max_id` throws. */
  predicate CursorReadable(read: CursorRead, next: Option<Scalar>) {
    !(read == StringRequired && (next.None? || next.value.AsString().None?))
  }

  /** From page `p` on, every page is walked, may have more, and has a readable cursor. */
  predicate ContinuesFrom<I>(loop: Loop, pages: seq<Page<I>>, p: nat) {
    forall k | p <= k < |pages| ::
      Walks(loop, pages[k]) && pages[k].more != Some(false) && CursorReadable(loop.cursor, pages[k].next)
  }

  /** The visit of no element throws. */
  predicate NoFail<I, O>(visit: I -> Visit<O>, xs: seq<I>) {
    forall j | 0 <= j < |xs| :: !visit(xs[j]).Fail?
  }

  lemma {:induction false} FlatSnoc<I>(loop: Loop, pages: seq<Page<I>>, page: Page<I>)
    ensures Flat(loop, pages + [page]) == Flat(loop, pages) + PageItems(loop, page)
    decreases |pages|
  {
    if pages == [] {
      assert [page][1..] == [];
    } else {
      assert (pages + [page])[0] == pages[0] && (pages + [page])[1..] == pages[1..] + [page];
      FlatSnoc(loop, pages[1..], page);
    }
  }

  lemma FlatStep<I>(loop: Loop, pages: seq<Page<I>>, p: nat)
    requires p < |pages|
    ensures Flat(loop, pages[..p + 1]) == Flat(loop, pages[..p]) + PageItems(loop, pages[p])
  {
    assert pages[..p + 1] == pages[..p] + [pages[p]];
    FlatSnoc(loop, pages[..p], pages[p]);
  }

  /** Element `i` of page `p` heads what is left; past the page's end, the next page begins. */
  lemma RestHead<I, O>(loop: Loop, visit: I -> Visit<O>, pages: seq<Page<I>>, p: nat, i: nat)
    requires p < |pages| && i < |PageItems(loop, pages[p])|
    ensures Rest(loop, pages, p, i) != [] && Rest(loop, pages, p, i)[0] == PageItems(loop, pages[p])[i]
    ensures Rest(loop, pages, p, i)[1..] == Rest(loop, pages, p, i + 1)
    ensures NoFail(visit, Rest(loop, pages, p, i)) ==>
              !visit(PageItems(loop, pages[p])[i]).Fail? && NoFail(visit, Rest(loop, pages, p, i + 1))
  {
    var items := PageItems(loop, pages[p]);
    assert items[i..] == [items[i]] + items[i + 1..];
    var r := Rest(loop, pages, p, i);
    assert forall j | 0 <= j < |r[1..]| :: r[1..][j] == r[j + 1];
  }

  lemma RestNext<I>(loop: Loop, pages: seq<Page<I>>, p: nat)
    requires p < |pages|
    ensures Rest(loop, pages, p, |PageItems(loop, pages[p])|) == Rest(loop, pages, p + 1, 0)
  {
    var items := PageItems(loop, pages[p]);
    assert items[|items|..] == [];
    if p + 1 < |pages| {
      assert pages[p + 1..][0] == pages[p + 1] && pages[p + 1..][1..] == pages[p + 2..];
      assert PageItems(loop, pages[p + 1])[0..] == PageItems(loop, pages[p + 1]);
    } else {
      assert pages[p + 1..] == [];
    }
  }

  lemma {:induction false} CountsAppend<I, O>(visit: I -> Visit<O>, a: seq<I>, b: seq<I>)
    ensures Counts(visit, a + b) == Counts(visit, a) + Counts(visit, b)
    decreases |a|
  {
    if a == [] {
      assert a + b == b;
    } else {
      assert (a + b)[0] == a[0] && (a + b)[1..] == a[1..] + b;
      CountsAppend(visit, a[1..], b);
    }
  }

  /** The first element of `xs` and the rest, as the take, the values and the count see them. */
  lemma TakeHead<I, O>(visit: I -> Visit<O>, xs: seq<I>, n: int)
    requires xs != [] && n > 0
    ensures Emits(visit, TakeCounted(visit, xs, n)) ==
            Yield(visit, xs[0]) + Emits(visit, TakeCounted(visit, xs[1..], if visit(xs[0]).Count? then n - 1 else n))
    ensures Counts(visit, xs) == (if visit(xs[0]).Count? then 1 else 0) + Counts(visit, xs[1..])
  {
    var t := TakeCounted(visit, xs[1..], if visit(xs[0]).Count? then n - 1 else n);
    assert ([xs[0]] + t)[0] == xs[0] && ([xs[0]] + t)[1..] == t;
  }

  /** A skipped element leaves the run as it was. */
  lemma RunSkip<I, O>(loop: Loop, visit: I -> Visit<O>, limit: int, pages: seq<Page<I>>,
                      p: nat, i: nat, counter: int, out: seq<O>, cursors: seq<string>)
    requires p < |pages| && Walks(loop, pages[p]) && i < |PageItems(loop, pages[p])|
    requires visit(PageItems(loop, pages[p])[i]).Skip?
    ensures Run(loop, visit, limit, pages, p, i, counter, out, cursors) ==
            Run(loop, visit, limit, pages, p, i + 1, counter, out, cursors)
  {
  }

  /** A skipped first element neither emits nor counts. */
  lemma TakeSkip<I, O>(visit: I -> Visit<O>, xs: seq<I>, n: int)
    requires xs != [] && n > 0 && visit(xs[0]).Skip?
    ensures Emits(visit, TakeCounted(visit, xs, n)) == Emits(visit, TakeCounted(visit, xs[1..], n))
    ensures Counts(visit, xs) == Counts(visit, xs[1..])
  {
    var t := TakeCounted(visit, xs[1..], n);
    assert ([xs[0]] + t)[0] == xs[0] && ([xs[0]] + t)[1..] == t;
  }

  /**
   * From a position, a run emits a prefix of what the elements left emit up
   * to the one that brings the counter to the amount.
   */
  lemma {:induction false} RunTakePrefix<I, O>(loop: Loop, visit: I -> Visit<O>, limit: int, pages: seq<Page<I>>,
                                               p: nat, i: nat, counter: int, out: seq<O>, cursors: seq<string>)
    requires (p < |pages| && i <= |PageItems(loop, pages[p])|) || p == |pages|
    requires 0 <= counter < Max(limit, 1)
    ensures Run(loop, visit, limit, pages, p, i, counter, out, cursors).out <=
            out + Emits(visit, TakeCounted(visit, Rest(loop, pages, p, i), Max(limit, 1) - counter))
    decreases |pages| - p, Progress(loop, pages, p, i)
  {
    var n := Max(limit, 1) - counter;
    if p < |pages| && Walks(loop, pages[p]) {
      var items := PageItems(loop, pages[p]);
      if i < |items| {
        RestHead(loop, visit, pages, p, i);
        TakeHead(visit, Rest(loop, pages, p, i), n);
        match visit(items[i])
        case Skip =>
          RunTakePrefix(loop, visit, limit, pages, p, i + 1, counter, out, cursors);
        case Fail =>
        case Count(e) =>
          if counter + 1 < limit {
            RunTakePrefix(loop, visit, limit, pages, p, i + 1, counter + 1, out + Emitted(e), cursors);
          }
      } else if pages[p].more != Some(false) {
        RestNext(loop, pages, p);
        match NextCursor(loop.cursor, pages[p].next, Last(cursors))
        case None =>
        case Some(c) =>
          RunTakePrefix(loop, visit, limit, pages, p + 1, 0, counter, out, cursors + [c]);
      }
    }
  }

  /**
   * From a position, on pages that all continue and elements that never
   * throw, a run emits exactly what the elements left emit up to the one that
   * brings the counter to the amount.
   */
  lemma {:induction false} RunTakeExact<I, O>(loop: Loop, visit: I -> Visit<O>, limit: int, pages: seq<Page<I>>,
                                              p: nat, i: nat, counter: int, out: seq<O>, cursors: seq<string>)
    requires (p < |pages| && i <= |PageItems(loop, pages[p])|) || p == |pages|
    requires 0 <= counter < Max(limit, 1)
    requires ContinuesFrom(loop, pages, p) && NoFail(visit, Rest(loop, pages, p, i))
    ensures Run(loop, visit, limit, pages, p, i, counter, out, cursors).out ==
            out + Emits(visit, TakeCounted(visit, Rest(loop, pages, p, i), Max(limit, 1) - counter))
    decreases |pages| - p, Progress(loop, pages, p, i)
  {
    var n := Max(limit, 1) - counter;
    if p < |pages| {
      var items := PageItems(loop, pages[p]);
      assert Walks(loop, pages[p]) && pages[p].more != Some(false) && CursorReadable(loop.cursor, pages[p].next);
      if i < |items| {
        var v := visit(items[i]);
        if v.Skip? {
          assert Run(loop, visit, limit, pages, p, i, counter, out, cursors) ==
                 Run(loop, visit, limit, pages, p, i + 1, counter, out, cursors) &&
                 Emits(visit, TakeCounted(visit, Rest(loop, pages, p, i), n)) ==
                 Emits(visit, TakeCounted(visit, Rest(loop, pages, p, i + 1), n)) &&
                 NoFail(visit, Rest(loop, pages, p, i + 1)) by {
            RestHead(loop, visit, pages, p, i);
            RunSkip(loop, visit, limit, pages, p, i, counter, out, cursors);
            TakeSkip(visit, Rest(loop, pages, p, i), n);
          }
          RunTakeExact(loop, visit, limit, pages, p, i + 1, counter, out, cursors);
        } else {
          var e := v.emitted;
          assert v.Count? && Emits(visit, TakeCounted(visit, Rest(loop, pages, p, i), n)) ==
                 Emitted(e) + Emits(visit, TakeCounted(visit, Rest(loop, pages, p, i + 1), n - 1)) &&
                 NoFail(visit, Rest(loop, pages, p, i + 1)) by {
            RestHead(loop, visit, pages, p, i);
            TakeHead(visit, Rest(loop, pages, p, i), n);
          }
          if counter + 1 < limit {
            RunTakeExact(loop, visit, limit, pages, p, i + 1, counter + 1, out + Emitted(e), cursors);
          } else {
            assert TakeCounted(visit, Rest(loop, pages, p, i + 1), n - 1) == [];
          }
        }
      } else {
        RestNext(loop, pages, p);
        var c := NextCursor(loop.cursor, pages[p].next, Last(cursors)).value;
        assert Run(loop, visit, limit, pages, p, i, counter, out, cursors) ==
               Run(loop, visit, limit, pages, p + 1, 0, counter, out, cursors + [c]);
        RunTakeExact(loop, visit, limit, pages, p + 1, 0, counter, out, cursors + [c]);
      }
    }
  }

  /**
   * From a position, on pages that all continue and elements that never
   * throw, a run ends by the counter exactly when enough elements are left,
   * and runs out of pages otherwise.
   */
  lemma {:induction false} RunEndsExact<I, O>(loop: Loop, visit: I -> Visit<O>, limit: int, pages: seq<Page<I>>,
                                              p: nat, i: nat, counter: int, out: seq<O>, cursors: seq<string>)
    requires (p < |pages| && i <= |PageItems(loop, pages[p])|) || p == |pages|
    requires 0 <= counter < Max(limit, 1)
    requires ContinuesFrom(loop, pages, p) && NoFail(visit, Rest(loop, pages, p, i))
    ensures Run(loop, visit, limit, pages, p, i, counter, out, cursors).end ==
            if Counts(visit, Rest(loop, pages, p, i)) >= Max(limit, 1) - counter then Finished else Exhausted
    decreases |pages| - p, Progress(loop, pages, p, i)
  {
    var n := Max(limit, 1) - counter;
    var w := Run(loop, visit, limit, pages, p, i, counter, out, cursors);
    if p < |pages| {
      var items := PageItems(loop, pages[p]);
      assert Walks(loop, pages[p]) && pages[p].more != Some(false) && CursorReadable(loop.cursor, pages[p].next);
      if i < |items| {
        RestHead(loop, visit, pages, p, i);
        TakeHead(visit, Rest(loop, pages, p, i), n);
        var v := visit(items[i]);
        if v.Skip? {
          assert w == Run(loop, visit, limit, pages, p, i + 1, counter, out, cursors);
          RunEndsExact(loop, visit, limit, pages, p, i + 1, counter, out, cursors);
        } else {
          var e := v.emitted;
          if counter + 1 < limit {
            assert w == Run(loop, visit, limit, pages, p, i + 1, counter + 1, out + Emitted(e), cursors);
            RunEndsExact(loop, visit, limit, pages, p, i + 1, counter + 1, out + Emitted(e), cursors);
          } else {
            assert w == Walk(out + Emitted(e), cursors, Finished);
          }
        }
      } else {
        RestNext(loop, pages, p);
        var c := NextCursor(loop.cursor, pages[p].next, Last(cursors)).value;
        assert w == Run(loop, visit, limit, pages, p + 1, 0, counter, out, cursors + [c]);
        RunEndsExact(loop, visit, limit, pages, p + 1, 0, counter, out, cursors + [c]);
      }
    }
  }

  /**
   * What a whole loop emits: a prefix of what the elements of its pages emit,
   * in page order (`ranked_items` before `items` on a page), up to the element
   * that brings the counter to max(amount, 1). When every page continues and no
   * element throws, it emits exactly that and ends by the counter exactly when
   * the pages hold that many counted elements.
   */
  lemma StartTake<I, O>(loop: Loop, visit: I -> Visit<O>, limit: int, pages: seq<Page<I>>)
    ensures var w := Start(loop, visit, limit, pages);
            var all := Flat(loop, pages);
            w.out <= Emits(visit, TakeCounted(visit, all, Max(limit, 1))) &&
            (ContinuesFrom(loop, pages, 0) && NoFail(visit, all) ==>
               w.out == Emits(visit, TakeCounted(visit, all, Max(limit, 1))) &&
               w.end == (if Counts(visit, all) >= Max(limit, 1) then Finished else Exhausted))
  {
    if pages != [] {
      assert PageItems(loop, pages[0])[0..] == PageItems(loop, pages[0]);
    }
    assert Rest(loop, pages, 0, 0) == Flat(loop, pages);
    RunTakePrefix(loop, visit, limit, pages, 0, 0, 0, [], [""]);
    if ContinuesFrom(loop, pages, 0) && NoFail(visit, Flat(loop, pages)) {
      RunTakeExact(loop, visit, limit, pages, 0, 0, 0, [], [""]);
      RunEndsExact(loop, visit, limit, pages, 0, 0, 0, [], [""]);
    }
  }

  lemma {:induction false} TakeCountedCounts<I, O>(visit: I -> Visit<O>, xs: seq<I>, n: int)
    requires n >= 0
    ensures Counts(visit, TakeCounted(visit, xs, n)) == if n < Counts(visit, xs) then n else Counts(visit, xs)
    decreases |xs|
  {
    if xs != [] && n > 0 {
      var t := TakeCounted(visit, xs[1..], if visit(xs[0]).Count? then n - 1 else n);
      TakeCountedCounts(visit, xs[1..], if visit(xs[0]).Count? then n - 1 else n);
      assert ([xs[0]] + t)[0] == xs[0] && ([xs[0]] + t)[1..] == t;
    }
  }

  lemma {:induction false} TakeCountedPrefix<I, O>(visit: I -> Visit<O>, xs: seq<I>, n: int)
    ensures TakeCounted(visit, xs, n) <= xs
    ensures Emits(visit, TakeCounted(visit, xs, n)) <= Emits(visit, xs)
    decreases |xs|
  {
    if xs != [] && n > 0 {
      var t := TakeCounted(visit, xs[1..], if visit(xs[0]).Count? then n - 1 else n);
      TakeCountedPrefix(visit, xs[1..], if visit(xs[0]).Count? then n - 1 else n);
      assert ([xs[0]] + t)[0] == xs[0] && ([xs[0]] + t)[1..] == t;
      assert xs == [xs[0]] + xs[1..];
    }
  }

  /** When every counted element emits a value, as many values are emitted as elements counted. */
  lemma {:induction false} EmitsCounted<I, O>(visit: I -> Visit<O>, xs: seq<I>)
    requires forall j | 0 <= j < |xs| :: visit(xs[j]).Count? ==> visit(xs[j]).emitted.Some?
    ensures |Emits(visit, xs)| == Counts(visit, xs)
    decreases |xs|
  {
    if xs != [] {
      assert forall j | 0 <= j < |xs[1..]| :: xs[1..][j] == xs[j + 1];
      EmitsCounted(visit, xs[1..]);
    }
  }

  /** When every element is counted, all of them are, and the first `n` make the prefix. */
  lemma {:induction false} AllCounted<I, O>(visit: I -> Visit<O>, xs: seq<I>, n: int)
    requires forall j | 0 <= j < |xs| :: visit(xs[j]).Count?
    requires n >= 0
    ensures Counts(visit, xs) == |xs|
    ensures TakeCounted(visit, xs, n) == xs[..if n < |xs| then n else |xs|]
    decreases |xs|
  {
    if xs != [] {
      assert forall j | 0 <= j < |xs[1..]| :: xs[1..][j] == xs[j + 1];
      AllCounted(visit, xs[1..], if n > 0 then n - 1 else 0);
      if n > 0 {
        var m := if n < |xs| then n else |xs|;
        assert xs[..m] == [xs[0]] + xs[1..][..m - 1];
      }
    }
  }

  /**
   * On pages that all continue, with elements that never throw and emit a
   * value whenever counted, a loop emits exactly min(max(amount, 1), M) values,
   * M being the number of elements the pages hold that it counts.
   */
  lemma StartCount<I, O>(loop: Loop, visit: I -> Visit<O>, limit: int, pages: seq<Page<I>>)
    requires ContinuesFrom(loop, pages, 0) && NoFail(visit, Flat(loop, pages))
    requires forall j | 0 <= j < |Flat(loop, pages)| :: visit(Flat(loop, pages)[j]).Count? ==> visit(Flat(loop, pages)[j]).emitted.Some?
    ensures var m := Counts(visit, Flat(loop, pages));
            |Start(loop, visit, limit, pages).out| == (if Max(limit, 1) < m then Max(limit, 1) else m)
  {
    var all := Flat(loop, pages);
    StartTake(loop, visit, limit, pages);
    TakeCountedPrefix(visit, all, Max(limit, 1));
    var t := TakeCounted(visit, all, Max(limit, 1));
    assert forall j | 0 <= j < |t| :: t[j] == all[j];
    EmitsCounted(visit, t);
    TakeCountedCounts(visit, all, Max(limit, 1));
  }

  /**
   * Why a run `w` over `pages` ended, read off the last page it requested
   * (`k`, the number of cursors sent minus one): it used up the pages exactly
   * when `k` is past them; it finished because that page was not walked, said
   * there was no more, or the pages up to it held max(amount, 1) counted
   * elements; it threw on that page's cursor or on an element that throws.
   */
  ghost predicate StopsFor<I, O>(loop: Loop, visit: I -> Visit<O>, limit: int, pages: seq<Page<I>>, w: Walk<O>) {
    var k := |w.cursors| - 1;
    1 <= |w.cursors| <= |pages| + 1 &&
    (w.end == Exhausted <==> k == |pages|) &&
    (w.end == Finished ==>
       !Walks(loop, pages[k]) || pages[k].more == Some(false) ||
       Counts(visit, Flat(loop, pages[..k + 1])) >= Max(limit, 1)) &&
    (w.end == Thrown ==>
       !CursorReadable(loop.cursor, pages[k].next) || !NoFail(visit, Flat(loop, pages[..k + 1])))
  }

  lemma {:induction false} RunStops<I, O>(loop: Loop, visit: I -> Visit<O>, limit: int, pages: seq<Page<I>>,
                                          p: nat, i: nat, counter: int, out: seq<O>, cursors: seq<string>)
    requires (p < |pages| && i <= |PageItems(loop, pages[p])|) || (p == |pages| && i == 0)
    requires |cursors| == p + 1 && 0 <= counter
    requires p < |pages| ==>
               counter == Counts(visit, Flat(loop, pages[..p])) + Counts(visit, PageItems(loop, pages[p])[..i])
    ensures StopsFor(loop, visit, limit, pages, Run(loop, visit, limit, pages, p, i, counter, out, cursors))
    decreases |pages| - p, Progress(loop, pages, p, i)
  {
    if p < |pages| {
      var items := PageItems(loop, pages[p]);
      FlatStep(loop, pages, p);
      if Walks(loop, pages[p]) {
        if i < |items| {
          assert items[..i + 1] == items[..i] + [items[i]];
          CountsAppend(visit, items[..i], [items[i]]);
          match visit(items[i])
          case Skip =>
            RunStops(loop, visit, limit, pages, p, i + 1, counter, out, cursors);
          case Fail =>
            assert Flat(loop, pages[..p + 1])[|Flat(loop, pages[..p])| + i] == items[i];
          case Count(e) =>
            if counter + 1 >= limit {
              assert items == items[..i + 1] + items[i + 1..];
              CountsAppend(visit, items[..i + 1], items[i + 1..]);
              CountsAppend(visit, Flat(loop, pages[..p]), items);
            } else {
              RunStops(loop, visit, limit, pages, p, i + 1, counter + 1, out + Emitted(e), cursors);
            }
        } else if pages[p].more != Some(false) {
          assert items[..i] == items;
          CountsAppend(visit, Flat(loop, pages[..p]), items);
          match NextCursor(loop.cursor, pages[p].next, Last(cursors))
          case None =>
          case Some(c) =>
            if p + 1 < |pages| {
              assert PageItems(loop, pages[p + 1])[..0] == [];
            }
            RunStops(loop, visit, limit, pages, p + 1, 0, counter, out, cursors + [c]);
        }
      }
    }
  }

  /** Why a whole run ended. */
  lemma StartStops<I, O>(loop: Loop, visit: I -> Visit<O>, limit: int, pages: seq<Page<I>>)
    ensures StopsFor(loop, visit, limit, pages, Start(loop, visit, limit, pages))
  {
    assert pages[..0] == [];
    if pages != [] {
      assert PageItems(loop, pages[0])[..0] == [];
    }
    RunStops(loop, visit, limit, pages, 0, 0, 0, [], [""]);
  }

  /** Request `k + 1` carries the cursor read from page `k`; a run that used up the pages sent one request per page. */
  ghost predicate CursorsFollow<I>(read: CursorRead, pages: seq<Page<I>>, cursors: seq<string>) {
    |cursors| >= 1 && cursors[0] == "" && |cursors| <= |pages| + 1 &&
    forall k | 0 <= k < |cursors| - 1 :: NextCursor(read, pages[k].next, cursors[k]) == Some(cursors[k + 1])
  }

  lemma {:induction false} RunCursors<I, O>(loop: Loop, visit: I -> Visit<O>, limit: int, pages: seq<Page<I>>,
                                            p: nat, i: nat, counter: int, out: seq<O>, cursors: seq<string>)
    requires p <= |pages| && |cursors| == p + 1 && CursorsFollow(loop.cursor, pages, cursors)
    ensures CursorsFollow(loop.cursor, pages, Run(loop, visit, limit, pages, p, i, counter, out, cursors).cursors)
    ensures Run(loop, visit, limit, pages, p, i, counter, out, cursors).end == Exhausted ==>
              |Run(loop, visit, limit, pages, p, i, counter, out, cursors).cursors| == |pages| + 1
    decreases |pages| - p, Progress(loop, pages, p, i)
  {
    if p < |pages| && Walks(loop, pages[p]) {
      var all := PageItems(loop, pages[p]);
      if i < |all| {
        match visit(all[i])
        case Skip => RunCursors(loop, visit, limit, pages, p, i + 1, counter, out, cursors);
        case Fail =>
        case Count(e) =>
          if counter + 1 < limit {
            RunCursors(loop, visit, limit, pages, p, i + 1, counter + 1, out + Emitted(e), cursors);
          }
      } else if pages[p].more != Some(false) && NextCursor(loop.cursor, pages[p].next, Last(cursors)).Some? {
        var c := NextCursor(loop.cursor, pages[p].next, Last(cursors)).value;
        var cursors' := cursors + [c];
        assert Last(cursors) == cursors[p];
        assert CursorsFollow(loop.cursor, pages, cursors') by {
          forall k | 0 <= k < |cursors'| - 1
            ensures NextCursor(loop.cursor, pages[k].next, cursors'[k]) == Some(cursors'[k + 1])
          {
            if k < p {
              assert cursors'[k] == cursors[k] && cursors'[k + 1] == cursors[k + 1];
            }
          }
        }
        RunCursors(loop, visit, limit, pages, p + 1, 0, counter, out, cursors');
      }
    }
  }

  /** The cursors of a whole run: "" first, then each read from the page before. */
  lemma StartCursors<I, O>(loop: Loop, visit: I -> Visit<O>, limit: int, pages: seq<Page<I>>)
    ensures CursorsFollow(loop.cursor, pages, Start(loop, visit, limit, pages).cursors)
    ensures Start(loop, visit, limit, pages).end == Exhausted ==> |Start(loop, visit, limit, pages).cursors| == |pages| + 1
  {
    RunCursors(loop, visit, limit, pages, 0, 0, 0, [], [""]);
  }

  /** A run of elements that are counted without emitting anything ends the loop with nothing emitted. */
  lemma {:induction false} CountedSilently<I, O>(loop: Loop, visit: I -> Visit<O>, limit: int, pages: seq<Page<I>>,
                                                 i: nat, counter: int)
    requires pages != [] && Walks(loop, pages[0])
    requires 0 <= counter <= i && counter < limit && limit <= |PageItems(loop, pages[0])|
    requires forall j | 0 <= j < limit :: visit(PageItems(loop, pages[0])[j]) == Count(None)
    requires counter == i
    ensures Run(loop, visit, limit, pages, 0, i, counter, [], [""]) == Walk([], [""], Finished)
    decreases limit - i
  {
    var all := PageItems(loop, pages[0]);
    assert visit(all[i]) == Count(None);
    assert [] + Emitted<O>(None) == [];
    if counter + 1 < limit {
      CountedSilently(loop, visit, limit, pages, i + 1, counter + 1);
    }
  }

  // ---------------------------------------------------------------------------
  // The loops of InstagramAPI.kt
  // ---------------------------------------------------------------------------

  /** An element of a JSON array in a reply: the object itself, its `user` and its `media_or_ad`. */
  datatype Element = Element(body: Value, user: Option<Value>, mediaOrAd: Option<Value>)

  /** A user object of a followers page: its scalar fields, `is_private` and `is_verified`. */
  datatype User = User(fields: map<string, Scalar>, isPrivate: Option<bool>, isVerified: Option<bool>)

  const LAST_USER_FEED: Loop := Loop(false, true, false, StringRequired)
  const HASHTAG_FEED: Loop := Loop(false, false, true, StringRequired)
  const LIKED_FEED: Loop := Loop(false, false, false, StringRequired)

  /** Followers: the request's result is ignored, `big_list` continues, and the cursor is read as a String. */
  function FollowLoop(isFollower: bool): (r: Loop)
    ensures r.ignoresFetch && !r.needsItems && !r.readsRanked
    ensures r.cursor == (if isFollower then StringOrNull else IntOrNull)
  {
    Loop(true, false, false, if isFollower then StringOrNull else IntOrNull)
  }

  /** The media loops emit each element and count it. */
  function EmitBody(x: Element): (r: Visit<Value>)
    ensures r == Count(Some(x.body))
  {
    Count(Some(x.body))
  }

  /** getTotalHashTagUsers emits an element's user when it has one, and counts the element either way. */
  function EmitUser(x: Element): (r: Visit<Value>)
    ensures r.Count? && r.emitted == x.user
  {
    Count(x.user)
  }

  /** Filters of the followers loop. */
  datatype Filter = Filter(isUsername: bool, filterPrivate: bool, filterVerified: bool)

  /**
   * A follower is skipped (neither emitted nor counted) when filtered out;
   * otherwise its `username` or `pk` is emitted, and `get` throws when that key is absent.
   */
  function FollowerVisit(f: Filter, u: User): (r: Visit<string>)
    ensures f.filterPrivate && u.isPrivate == Some(true) ==> r == Skip
    ensures f.filterVerified && u.isVerified == Some(true) ==> r == Skip
    ensures r.Fail? ==> (if f.isUsername then "username" else "pk") !in u.fields
    ensures r.Count? ==> r.emitted.Some? && !(f.filterPrivate && u.isPrivate == Some(true)) &&
                         !(f.filterVerified && u.isVerified == Some(true))
  {
    var key := if f.isUsername then "username" else "pk";
    if f.filterPrivate && u.isPrivate == Some(true) then Skip
    else if f.filterVerified && u.isVerified == Some(true) then Skip
    else if key in u.fields then Count(Some(u.fields[key].Show()))
    else Fail
  }

  /** The user object read before the loop: `is_private` and the two counts. */
  datatype Account = Account(isPrivate: Option<bool>, followerCount: Option<Scalar>, followingCount: Option<Scalar>)

  /** The outcome of the checks before the followers loop: no loop, a total, or a NullPointerException. */
  datatype Preamble = Skipped | Total(n: int) | Crash

  /**
   * getTotalFollowersOrFollowings before its loop: nothing for a missing or
   * private user; the total is the amount capped by the user's count (whose
   * absence throws); nothing when the output file exists and may not be overwritten.
   */
  function FollowPreamble(user: Option<Account>, amount: int, isFollower: bool,
                          writeFile: bool, fileExists: bool, overwrite: bool): (r: Preamble)
    ensures user.None? || user.value.isPrivate == Some(true) ==> r == Skipped
    ensures r.Total? ==> r.n <= amount && !(writeFile && fileExists && !overwrite)
    ensures r.Total? ==> var count := if isFollower then user.value.followerCount else user.value.followingCount;
                         count.Some? && count.value.AsInt().Some? && r.n <= count.value.AsInt().value &&
                         (r.n == amount || r.n == count.value.AsInt().value)
  {
    if user.None? || user.value.isPrivate == Some(true) then Skipped
    else
      var count := if isFollower then user.value.followerCount else user.value.followingCount;
      var n := if count.Some? then count.value.AsInt() else None;
      if n.None? then Crash
      else if writeFile && fileExists && !overwrite then Skipped
      else Total(if amount < n.value then amount else n.value)
  }

  /** getTotalFollowersOrFollowings: the checks, then the loop over the follower (or following) pages. */
  method GetTotalFollowersOrFollowings(user: Option<Account>, amount: int, isFollower: bool, f: Filter,
                                       fileNameToWrite: string, fileExists: bool, overwrite: bool,
                                       pages: seq<Page<User>>) returns (w: Walk<string>)
    ensures FollowPreamble(user, amount, isFollower, fileNameToWrite != [], fileExists, overwrite) == Skipped ==>
              w == Walk([], [], Finished)
    ensures FollowPreamble(user, amount, isFollower, fileNameToWrite != [], fileExists, overwrite) == Crash ==>
              w == Walk([], [], Thrown)
    ensures FollowPreamble(user, amount, isFollower, fileNameToWrite != [], fileExists, overwrite).Total? ==>
              var total := FollowPreamble(user, amount, isFollower, fileNameToWrite != [], fileExists, overwrite).n;
              var loop, visit := FollowLoop(isFollower), u => FollowerVisit(f, u);
              w == Start(loop, visit, total, pages) &&
              |w.out| <= Max(total, 1) &&
              w.out <= Emits(visit, Flat(loop, pages)) &&
              (forall o | o in w.out :: Produced(loop, visit, pages, |w.cursors|, o)) &&
              StopsFor(loop, visit, total, pages, w) &&
              (ContinuesFrom(loop, pages, 0) && NoFail(visit, Flat(loop, pages)) ==>
                 var m := Counts(visit, Flat(loop, pages));
                 |w.out| == (if Max(total, 1) < m then Max(total, 1) else m) &&
                 w.end == (if m >= Max(total, 1) then Finished else Exhausted))
  {
    var pre := FollowPreamble(user, amount, isFollower, fileNameToWrite != [], fileExists, overwrite);
    match pre
    case Skipped => w := Walk([], [], Finished);
    case Crash => w := Walk([], [], Thrown);
    case Total(total) =>
      var loop, visit := FollowLoop(isFollower), u => FollowerVisit(f, u);
      w := Paginate(loop, visit, total, pages);
      StartFacts(loop, visit, total, pages);
      if ContinuesFrom(loop, pages, 0) && NoFail(visit, Flat(loop, pages)) {
        StartTake(loop, visit, total, pages);
        StartCount(loop, visit, total, pages);
      }
  }

  /** With the private filter on, every emitted key belongs to a user whose `is_private` is not true. */
  lemma FilteredNeverEmitted(isFollower: bool, f: Filter, total: int, pages: seq<Page<User>>, o: string)
    requires f.filterPrivate
    requires o in Start(FollowLoop(isFollower), u => FollowerVisit(f, u), total, pages).out
    ensures exists q, j | 0 <= q < |pages| && 0 <= j < |PageItems(FollowLoop(isFollower), pages[q])| ::
              PageItems(FollowLoop(isFollower), pages[q])[j].isPrivate != Some(true) &&
              FollowerVisit(f, PageItems(FollowLoop(isFollower), pages[q])[j]) == Count(Some(o))
  {
    var visit := u => FollowerVisit(f, u);
    var w := Start(FollowLoop(isFollower), visit, total, pages);
    StartProduced(FollowLoop(isFollower), visit, total, pages);
    assert Produced(FollowLoop(isFollower), visit, pages, |w.cursors|, o);
  }

  /**
   * The following loop reads `next_max_id` as an Int: a textual cursor turns
   * into the cursor "null". The followers loop reads it as a String: a numeric
   * one does.
   */
  lemma CursorTypeMismatch(s: string, n: int)
    ensures NextCursor(FollowLoop(false).cursor, Some(Text(s)), "") == Some("null")
    ensures NextCursor(FollowLoop(true).cursor, Some(Number(n)), "") == Some("null")
    ensures NextCursor(FollowLoop(true).cursor, Some(Text(s)), "") == Some(s)
  {
  }

  /**
   * The facts every loop shares: at most max(amount, 1) values, a prefix of
   * what the elements of the pages emit in order, each from a page that was
   * requested, and the reason the run ended.
   */
  lemma StartFacts<I, O>(loop: Loop, visit: I -> Visit<O>, limit: int, pages: seq<Page<I>>)
    ensures var w := Start(loop, visit, limit, pages);
            |w.out| <= Max(limit, 1) &&
            w.out <= Emits(visit, Flat(loop, pages)) &&
            (forall o | o in w.out :: Produced(loop, visit, pages, |w.cursors|, o)) &&
            StopsFor(loop, visit, limit, pages, w)
  {
    RunBounded(loop, visit, limit, pages, 0, 0, 0, [], [""]);
    StartTake(loop, visit, limit, pages);
    TakeCountedPrefix(visit, Flat(loop, pages), Max(limit, 1));
    StartProduced(loop, visit, limit, pages);
    StartStops(loop, visit, limit, pages);
  }

  /**
   * A loop that counts every element, on pages that all continue: it emits
   * what the first min(max(amount, 1), N) elements emit, N being the number of
   * elements, and ends by the counter exactly when N reaches max(amount, 1).
   */
  lemma StartAllCounted<I, O>(loop: Loop, visit: I -> Visit<O>, limit: int, pages: seq<Page<I>>)
    requires ContinuesFrom(loop, pages, 0)
    requires forall j | 0 <= j < |Flat(loop, pages)| :: visit(Flat(loop, pages)[j]).Count?
    ensures var all := Flat(loop, pages);
            var w := Start(loop, visit, limit, pages);
            w.out == Emits(visit, all[..if Max(limit, 1) < |all| then Max(limit, 1) else |all|]) &&
            w.end == (if |all| >= Max(limit, 1) then Finished else Exhausted)
  {
    StartTake(loop, visit, limit, pages);
    AllCounted(visit, Flat(loop, pages), Max(limit, 1));
  }

  /** getLastUserFeed: the `items` of each page; a page without them ends the flow. */
  method GetLastUserFeed(amount: int, pages: seq<Page<Element>>) returns (w: Walk<Value>)
    ensures w == Start(LAST_USER_FEED, EmitBody, amount, pages)
    ensures |w.out| <= Max(amount, 1)
    ensures w.out <= Emits(EmitBody, Flat(LAST_USER_FEED, pages))
    ensures forall o | o in w.out :: Produced(LAST_USER_FEED, EmitBody, pages, |w.cursors|, o)
    ensures StopsFor(LAST_USER_FEED, EmitBody, amount, pages, w)
    ensures ContinuesFrom(LAST_USER_FEED, pages, 0) ==>
              var n := |Flat(LAST_USER_FEED, pages)|;
              |w.out| == (if Max(amount, 1) < n then Max(amount, 1) else n) &&
              w.end == (if n >= Max(amount, 1) then Finished else Exhausted)
    ensures w.end == Exhausted ==> forall k | 0 <= k < |pages| :: pages[k].fetched && pages[k].items.Some?
  {
    w := Paginate(LAST_USER_FEED, EmitBody, amount, pages);
    StartFacts(LAST_USER_FEED, EmitBody, amount, pages);
    ExhaustedWalkedAll(LAST_USER_FEED, EmitBody, amount, pages, 0, 0, 0, [], [""]);
    if ContinuesFrom(LAST_USER_FEED, pages, 0) {
      EveryBodyCounted(LAST_USER_FEED, amount, pages);
    }
  }

  /** The media loops count every element and emit its body: they emit the first bodies, as many as asked. */
  lemma EveryBodyCounted(loop: Loop, amount: int, pages: seq<Page<Element>>)
    requires ContinuesFrom(loop, pages, 0)
    ensures var n := |Flat(loop, pages)|;
            |Start(loop, EmitBody, amount, pages).out| == (if Max(amount, 1) < n then Max(amount, 1) else n) &&
            Start(loop, EmitBody, amount, pages).end == (if n >= Max(amount, 1) then Finished else Exhausted)
  {
    var all := Flat(loop, pages);
    assert forall j | 0 <= j < |all| :: EmitBody(all[j]).Count?;
    StartAllCounted(loop, EmitBody, amount, pages);
    var m := if Max(amount, 1) < |all| then Max(amount, 1) else |all|;
    assert forall j | 0 <= j < m :: all[..m][j] == all[j];
    EmitsCounted(EmitBody, all[..m]);
    AllCounted(EmitBody, all[..m], 0);
  }

  /** A run that used up the pages walked every page from `p` on. */
  lemma {:induction false} ExhaustedWalkedAll<I, O>(loop: Loop, visit: I -> Visit<O>, limit: int, pages: seq<Page<I>>,
                                                    p: nat, i: nat, counter: int, out: seq<O>, cursors: seq<string>)
    ensures Run(loop, visit, limit, pages, p, i, counter, out, cursors).end == Exhausted ==>
              forall k | p <= k < |pages| :: Walks(loop, pages[k]) && pages[k].more != Some(false)
    decreases |pages| - p, Progress(loop, pages, p, i)
  {
    if p < |pages| && Walks(loop, pages[p]) {
      var all := PageItems(loop, pages[p]);
      if i < |all| {
        match visit(all[i])
        case Skip => ExhaustedWalkedAll(loop, visit, limit, pages, p, i + 1, counter, out, cursors);
        case Fail =>
        case Count(e) =>
          if counter + 1 < limit {
            ExhaustedWalkedAll(loop, visit, limit, pages, p, i + 1, counter + 1, out + Emitted(e), cursors);
          }
      } else if pages[p].more != Some(false) && NextCursor(loop.cursor, pages[p].next, Last(cursors)).Some? {
        var c := NextCursor(loop.cursor, pages[p].next, Last(cursors)).value;
        ExhaustedWalkedAll(loop, visit, limit, pages, p + 1, 0, counter, out, cursors + [c]);
      }
    }
  }

  /** getTotalHashTagMedia walks a page's `ranked_items`, then its `items`. */
  lemma HashTagRankedFirst(page: Page<Element>)
    ensures PageItems(HASHTAG_FEED, page) == page.ranked.GetOr([]) + page.items.GetOr([])
  {
  }

  /** getTotalHashTagMedia: `ranked_items`, then `items`, under one counter. */
  method GetTotalHashTagMedia(amount: int, pages: seq<Page<Element>>) returns (w: Walk<Value>)
    ensures w == Start(HASHTAG_FEED, EmitBody, amount, pages)
    ensures |w.out| <= Max(amount, 1)
    ensures w.out <= Emits(EmitBody, Flat(HASHTAG_FEED, pages))
    ensures forall o | o in w.out :: Produced(HASHTAG_FEED, EmitBody, pages, |w.cursors|, o)
    ensures StopsFor(HASHTAG_FEED, EmitBody, amount, pages, w)
    ensures ContinuesFrom(HASHTAG_FEED, pages, 0) ==>
              var n := |Flat(HASHTAG_FEED, pages)|;
              |w.out| == (if Max(amount, 1) < n then Max(amount, 1) else n) &&
              w.end == (if n >= Max(amount, 1) then Finished else Exhausted)
  {
    w := Paginate(HASHTAG_FEED, EmitBody, amount, pages);
    StartFacts(HASHTAG_FEED, EmitBody, amount, pages);
    if ContinuesFrom(HASHTAG_FEED, pages, 0) {
      EveryBodyCounted(HASHTAG_FEED, amount, pages);
    }
  }

  /** getTotalHashTagUsers: every element counts; those with a `user` emit it. */
  method GetTotalHashTagUsers(amount: int, pages: seq<Page<Element>>) returns (w: Walk<Value>)
    ensures w == Start(HASHTAG_FEED, EmitUser, amount, pages)
    ensures |w.out| <= Max(amount, 1)
    ensures w.out <= Emits(EmitUser, Flat(HASHTAG_FEED, pages))
    ensures forall o | o in w.out :: Produced(HASHTAG_FEED, EmitUser, pages, |w.cursors|, o)
    ensures StopsFor(HASHTAG_FEED, EmitUser, amount, pages, w)
    ensures ContinuesFrom(HASHTAG_FEED, pages, 0) ==>
              var all := Flat(HASHTAG_FEED, pages);
              w.out == Emits(EmitUser, all[..if Max(amount, 1) < |all| then Max(amount, 1) else |all|]) &&
              w.end == (if |all| >= Max(amount, 1) then Finished else Exhausted)
  {
    w := Paginate(HASHTAG_FEED, EmitUser, amount, pages);
    StartFacts(HASHTAG_FEED, EmitUser, amount, pages);
    if ContinuesFrom(HASHTAG_FEED, pages, 0) {
      assert forall j | 0 <= j < |Flat(HASHTAG_FEED, pages)| :: EmitUser(Flat(HASHTAG_FEED, pages)[j]).Count?;
      StartAllCounted(HASHTAG_FEED, EmitUser, amount, pages);
    }
  }

  /**
   * getTotalHashTagUsers counts the elements without a user: when the first
   * `amount` elements of the first page have none, nothing is emitted at all.
   */
  lemma HashTagUsersCountUserless(amount: int, pages: seq<Page<Element>>)
    requires pages != [] && pages[0].fetched && 1 <= amount <= |PageItems(HASHTAG_FEED, pages[0])|
    requires forall j | 0 <= j < amount :: PageItems(HASHTAG_FEED, pages[0])[j].user.None?
    ensures Start(HASHTAG_FEED, EmitUser, amount, pages) == Walk([], [""], Finished)
  {
    CountedSilently(HASHTAG_FEED, EmitUser, amount, pages, 0, 0);
  }

  /** getTotalLikedMedia */
  method GetTotalLikedMedia(amount: int, pages: seq<Page<Element>>) returns (w: Walk<Value>)
    ensures w == Start(LIKED_FEED, EmitBody, amount, pages)
    ensures |w.out| <= Max(amount, 1)
    ensures w.out <= Emits(EmitBody, Flat(LIKED_FEED, pages))
    ensures forall o | o in w.out :: Produced(LIKED_FEED, EmitBody, pages, |w.cursors|, o)
    ensures StopsFor(LIKED_FEED, EmitBody, amount, pages, w)
    ensures ContinuesFrom(LIKED_FEED, pages, 0) ==>
              var n := |Flat(LIKED_FEED, pages)|;
              |w.out| == (if Max(amount, 1) < n then Max(amount, 1) else n) &&
              w.end == (if n >= Max(amount, 1) then Finished else Exhausted)
    ensures CursorsFollow(StringRequired, pages, w.cursors)
  {
    w := Paginate(LIKED_FEED, EmitBody, amount, pages);
    StartFacts(LIKED_FEED, EmitBody, amount, pages);
    StartCursors(LIKED_FEED, EmitBody, amount, pages);
    if ContinuesFrom(LIKED_FEED, pages, 0) {
      EveryBodyCounted(LIKED_FEED, amount, pages);
    }
  }
}
