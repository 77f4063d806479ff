/**
 * The action governor of InstagramBot (bot/InstagramBot.kt): per-action
 * counters, blocked and sleeping flags, daily maxima and the time of the last
 * reset; the gates that guard each like, follow, unfollow, comment, unlike,
 * block and unblock; and the drivers that run a gate over a list.
 *
 * Time is an input: every `Date()` the source reads is an instant given by the
 * caller. Every server reply is an input too: for the gated actions the
 * `lastJSON` reply after the request, for unlike/block/unblock whether the
 * request succeeded. Sleeps and console output are left out.
 */
module InstagramBot {
  import opened Wrappers
  import opened Strings
  import opened Json
  import opened Reels
  import opened Pagination
  import Api = InstagramApi
  import Request

  /** The tracked actions. */
  const ACTIONS: seq<string> := ["likes", "unlikes", "follows", "unfollows", "comments",
                                 "blocks", "unblocks", "messages", "archived", "unarchived", "stories_viewed"]

  /** The governor's state: totals, blocked and sleeping flags per action, and the last reset. */
  datatype Ledger = Ledger(totals: map<string, int>, blocked: map<string, bool>,
                           sleeping: map<string, bool>, startTime: int)

  /** The constructor's settings: daily maxima, `blockedActionProtection`, `blockedActionSleep`. */
  datatype Policy = Policy(max: map<string, int>, protection: bool, sleepMode: bool)

  /** Every action with a total has both flags. */
  predicate Tracks(l: Ledger) {
    l.blocked.Keys == l.totals.Keys && l.sleeping.Keys == l.totals.Keys
  }

  /** `r` tracks the same actions as `l`. */
  predicate Keeps(l: Ledger, r: Ledger) {
    r.totals.Keys == l.totals.Keys && r.blocked.Keys == l.blocked.Keys && r.sleeping.Keys == l.sleeping.Keys
  }

  /** resetCounters: every total to 0, every blocked flag to false, the reset time to now. */
  function Reset(l: Ledger, now: int): (r: Ledger)
    ensures Keeps(l, r) && r.sleeping == l.sleeping && r.startTime == now
  {
    Ledger(map a | a in l.totals :: 0, map a | a in l.blocked :: false, l.sleeping, now)
  }

  /** A reset clears every total and every blocked flag, and touches nothing else. */
  lemma ResetClears(l: Ledger, now: int)
    ensures var r := Reset(l, now);
            (forall a | a in r.totals :: r.totals[a] == 0) && (forall a | a in r.blocked :: !r.blocked[a]) &&
            r.totals.Keys == l.totals.Keys && r.blocked.Keys == l.blocked.Keys
  {
  }

  /** The first half of reachedLimit: a reset whenever now is later than the last reset. */
  function Refresh(l: Ledger, now: int): (r: Ledger)
    ensures Keeps(l, r)
  {
    if now > l.startTime then Reset(l, now) else l
  }

  /** The second half of reachedLimit: nothing left of the daily maximum. */
  predicate OutOfQuota(p: Policy, l: Ledger, key: string)
    requires key in p.max && key in l.totals
  {
    p.max[key] - l.totals[key] <= 0
  }

  /** A refresh at the same instant does nothing more. */
  lemma RefreshIdempotent(l: Ledger, now: int)
    ensures Refresh(Refresh(l, now), now) == Refresh(l, now)
  {
  }

  /**
   * Since every check later than the last reset resets, the quota only bites
   * when the maximum itself is 0 or less.
   */
  lemma QuotaOnlyBindsAtZero(p: Policy, l: Ledger, key: string, now: int)
    requires Tracks(l) && key in p.max && key in l.totals && now > l.startTime
    ensures OutOfQuota(p, Refresh(l, now), key) <==> p.max[key] <= 0
  {
  }

  // ---------------------------------------------------------------------------
  // The gates
  // ---------------------------------------------------------------------------

  /** The outcome of a gate: the new ledger, the result, and whether the request was sent. */
  datatype Step = Step(ledger: Ledger, ok: bool, called: bool)

  function Message(reply: Option<Reply>): Option<string> {
    if reply.Some? then reply.value.message else None
  }

  function Status(reply: Option<Reply>): Option<string> {
    if reply.Some? then reply.value.status else None
  }

  /**
   * The reply handling shared by like, follow, unfollow and comment (and, with
   * `strict`, likeComment, which blocks on the first `feedback_required`).
   */
  function React(p: Policy, key: string, l: Ledger, reply: Option<Reply>, strict: bool): (r: Step)
    requires Tracks(l) && key in l.totals
    ensures Keeps(l, r.ledger) && r.called && r.ledger.startTime == l.startTime
  {
    if Message(reply) == Some("feedback_required") then
      var l' :=
        if strict then l.(blocked := l.blocked[key := true])
        else if !p.sleepMode then (if p.protection then l.(blocked := l.blocked[key := true]) else l)
        else if l.sleeping[key] && p.protection then
          l.(sleeping := l.sleeping[key := false], blocked := l.blocked[key := true])
        else l.(sleeping := l.sleeping[key := true]);
      Step(l', false, true)
    else if Status(reply) == Some("ok") then
      var sleeping := if p.sleepMode then l.sleeping[key := false] else l.sleeping;
      Step(l.(totals := l.totals[key := l.totals[key] + 1], sleeping := sleeping), true, true)
    else Step(l, false, true)
  }

  /**
   * like / follow / unfollow (and likeComment with `strict`): the quota check,
   * then the blocked flag, then the request and its reply.
   */
  function Gate(p: Policy, key: string, l: Ledger, now: int, reply: Option<Reply>, strict: bool): (r: Step)
    requires Tracks(l) && key in p.max && key in l.totals
    ensures Keeps(l, r.ledger) && r.ledger.startTime == Refresh(l, now).startTime
  {
    var l1 := Refresh(l, now);
    if OutOfQuota(p, l1, key) || l1.blocked[key] then Step(l1, false, false)
    else React(p, key, l1, reply, strict)
  }

  /**
   * The gate's promises: the request is sent exactly when the quota and the
   * blocked flag allow it; only an "ok" status without `feedback_required`
   * succeeds and counts exactly one; `feedback_required` blocks or puts the
   * action to sleep by the policy; nothing else changes.
   */
  lemma GateOutcome(p: Policy, key: string, l: Ledger, now: int, reply: Option<Reply>, strict: bool)
    requires Tracks(l) && key in p.max && key in l.totals
    ensures var g, l1 := Gate(p, key, l, now, reply, strict), Refresh(l, now);
            var feedback := Message(reply) == Some("feedback_required");
            (g.called <==> !OutOfQuota(p, l1, key) && !l1.blocked[key]) &&
            (!g.called ==> g.ledger == l1 && !g.ok) &&
            (g.ok <==> g.called && !feedback && Status(reply) == Some("ok")) &&
            (g.ok ==> g.ledger.totals == l1.totals[key := l1.totals[key] + 1] && g.ledger.blocked == l1.blocked &&
                      g.ledger.sleeping[key] == (!p.sleepMode && l1.sleeping[key])) &&
            (!g.ok ==> g.ledger.totals == l1.totals) &&
            (g.called && feedback && (strict || !p.sleepMode) ==>
               g.ledger.blocked[key] == (strict || p.protection) && g.ledger.sleeping == l1.sleeping) &&
            (g.called && feedback && !strict && p.sleepMode ==>
               if l1.sleeping[key] && p.protection
               then g.ledger.blocked[key] && !g.ledger.sleeping[key]
               else !g.ledger.blocked[key] && g.ledger.sleeping[key])
  {
  }

  /** comment: nothing at all when the media is already commented; the gate otherwise. */
  function Commenting(p: Policy, l: Ledger, commented: bool, now: int, reply: Option<Reply>): (r: Step)
    requires Tracks(l) && "comments" in p.max && "comments" in l.totals
    ensures commented ==> r == Step(l, true, false)
    ensures !commented ==> r == Gate(p, "comments", l, now, reply, false)
  {
    if commented then Step(l, true, false) else Gate(p, "comments", l, now, reply, false)
  }

  /** unlike / block / unblock: the quota check, then the request; a success counts one. */
  function Plain(p: Policy, key: string, l: Ledger, now: int, accepted: bool): (r: Step)
    requires Tracks(l) && key in p.max && key in l.totals
    ensures Keeps(l, r.ledger)
  {
    var l1 := Refresh(l, now);
    if OutOfQuota(p, l1, key) then Step(l1, false, false)
    else if accepted then Step(l1.(totals := l1.totals[key := l1.totals[key] + 1]), true, true)
    else Step(l1, false, true)
  }

  /**
   * The plain gate's promises: the request is sent exactly when the quota
   * allows it, a success counts exactly one, and no flag changes.
   */
  lemma PlainOutcome(p: Policy, key: string, l: Ledger, now: int, accepted: bool)
    requires Tracks(l) && key in p.max && key in l.totals
    ensures var g, l1 := Plain(p, key, l, now, accepted), Refresh(l, now);
            g.ledger.blocked == l1.blocked && g.ledger.sleeping == l.sleeping &&
            (g.called <==> !OutOfQuota(p, l1, key)) &&
            (g.ok <==> g.called && accepted) &&
            (g.ok ==> g.ledger.totals == l1.totals[key := l1.totals[key] + 1]) &&
            (!g.ok ==> g.ledger == l1)
  {
  }

  /**
   * The text check of replyToComment: None where `commentText[0]` throws on an
   * empty text; false when the text does not start with '@' or its first
   * word names the user themself.
   */
  function MentionCheck(text: string, username: string): (r: Option<bool>)
    ensures r.None? <==> text == []
    ensures r.Some? && text[0] != '@' ==> r == Some(false)
  {
    if text == [] then None
    else if text[0] != '@' then Some(false)
    else
      SplitHead(text, " ");
      var first := Split(text, " ")[0];
      Some(!(first[1..] == username))
  }

  /** A reply whose first word is '@' and the user's own name is refused. */
  lemma NoReplyToSelf(username: string, rest: string)
    requires ' ' !in username
    ensures MentionCheck("@" + username + " " + rest, username) == Some(false)
  {
    var x := "@" + username;
    CleanWithoutFirst(x, " ");
    SplitCut(x, " ", rest);
    assert Split(x + " " + rest, " ")[0] == x;
    assert x[1..] == username;
  }

  /** A reply whose first word mentions someone else passes the check. */
  lemma ReplyToOther(username: string, other: string, rest: string)
    requires ' ' !in other && other != username
    ensures MentionCheck("@" + other + " " + rest, username) == Some(true)
  {
    var x := "@" + other;
    CleanWithoutFirst(x, " ");
    SplitCut(x, " ", rest);
    assert Split(x + " " + rest, " ")[0] == x;
    assert x[1..] == other;
  }

  /** The outcome of replyToComment: a step, or the exception of an empty text (after the quota check). */
  datatype Replied = Replied(step: Step, threw: bool)

  /**
   * replyToComment: refused unless the media is commented; then the quota and
   * blocked checks, then the text check, then the request. Unlike comment, a
   * `feedback_required` reply changes no flag.
   */
  function Replying(p: Policy, l: Ledger, commented: bool, now: int, text: string, username: string,
                    reply: Option<Reply>): (r: Replied)
    requires Tracks(l) && "comments" in p.max && "comments" in l.totals
    ensures !commented ==> r == Replied(Step(l, false, false), false)
    ensures r.step.called ==> commented && MentionCheck(text, username) == Some(true)
    ensures r.threw ==> text == [] && !r.step.ok
    ensures r.step.ok <==> r.step.called && Message(reply) != Some("feedback_required") && Status(reply) == Some("ok")
    ensures commented && !r.step.ok ==> r.step.ledger == Refresh(l, now)
    ensures r.step.ok ==> r.step.ledger == Refresh(l, now).(totals := Refresh(l, now).totals["comments" := Refresh(l, now).totals["comments"] + 1])
  {
    if !commented then Replied(Step(l, false, false), false)
    else
      var l1 := Refresh(l, now);
      if OutOfQuota(p, l1, "comments") || l1.blocked["comments"] then Replied(Step(l1, false, false), false)
      else
        match MentionCheck(text, username)
        case None => Replied(Step(l1, false, false), true)
        case Some(false) => Replied(Step(l1, false, false), false)
        case Some(true) =>
          if Message(reply) == Some("feedback_required") then Replied(Step(l1, false, true), false)
          else if Status(reply) == Some("ok") then
            Replied(Step(l1.(totals := l1.totals["comments" := l1.totals["comments"] + 1]), true, true), false)
          else Replied(Step(l1, false, true), false)
  }

  // ---------------------------------------------------------------------------
  // The list drivers
  // ---------------------------------------------------------------------------

  /**
   * The inputs of one element of a driver: the instant of the driver's own
   * quota check, the instant of the gate's, the reply to a gated request, and
   * whether an unlike/block/unblock request succeeded.
   */
  datatype Attempt = Attempt(checkAt: int, actAt: int, reply: Option<Reply>, accepted: bool)

  /** What a driver leaves: the ledger, the ids it emitted, and the index it stopped at. */
  datatype Drive = Drive(ledger: Ledger, out: seq<string>, done: nat)

  /**
   * likeMedias / followUsers / unfollowUsers from element `i`: stop when the
   * quota check says so, otherwise run the gate and emit the id on success.
   */
  function QuotaDrive(p: Policy, key: string, l: Ledger, ids: seq<string>, attempts: seq<Attempt>,
                      i: nat, out: seq<string>): (r: Drive)
    requires Tracks(l) && key in p.max && key in l.totals && |attempts| >= |ids| && i <= |ids|
    ensures Keeps(l, r.ledger) && i <= r.done <= |ids|
    decreases |ids| - i
  {
    if i == |ids| then Drive(l, out, i)
    else
      var l1 := Refresh(l, attempts[i].checkAt);
      if OutOfQuota(p, l1, key) then Drive(l1, out, i)
      else
        var s := Gate(p, key, l1, attempts[i].actAt, attempts[i].reply, false);
        QuotaDrive(p, key, s.ledger, ids, attempts, i + 1, (if s.ok then out + [ids[i]] else out))
  }

  /** Tracking survives every change that keeps the key sets. */
  lemma KeepsTracks(l: Ledger, r: Ledger)
    requires Tracks(l) && Keeps(l, r)
    ensures Tracks(r)
  {
  }

  /** One element of a quota drive. */
  lemma QuotaDriveStep(p: Policy, key: string, l: Ledger, ids: seq<string>, attempts: seq<Attempt>,
                       i: nat, out: seq<string>)
    requires Tracks(l) && key in p.max && key in l.totals && |attempts| >= |ids| && i < |ids|
    ensures Tracks(Refresh(l, attempts[i].checkAt))
    ensures OutOfQuota(p, Refresh(l, attempts[i].checkAt), key) ==>
              QuotaDrive(p, key, l, ids, attempts, i, out) == Drive(Refresh(l, attempts[i].checkAt), out, i)
    ensures !OutOfQuota(p, Refresh(l, attempts[i].checkAt), key) ==>
              var s := Gate(p, key, Refresh(l, attempts[i].checkAt), attempts[i].actAt, attempts[i].reply, false);
              Tracks(s.ledger) && key in s.ledger.totals &&
              QuotaDrive(p, key, l, ids, attempts, i, out) ==
                QuotaDrive(p, key, s.ledger, ids, attempts, i + 1, (if s.ok then out + [ids[i]] else out))
  {
    var l1 := Refresh(l, attempts[i].checkAt);
    KeepsTracks(l, l1);
    if !OutOfQuota(p, l1, key) {
      var s := Gate(p, key, l1, attempts[i].actAt, attempts[i].reply, false);
      KeepsTracks(l1, s.ledger);
    }
  }

  /**
   * blockUsers (`stopOnFailure`) and unblockUsers from element `i`: the plain
   * gate on each id, emitting it on success.
   */
  function PlainDrive(p: Policy, key: string, stopOnFailure: bool, l: Ledger, ids: seq<string>,
                      attempts: seq<Attempt>, i: nat, out: seq<string>): (r: Drive)
    requires Tracks(l) && key in p.max && key in l.totals && |attempts| >= |ids| && i <= |ids|
    ensures Keeps(l, r.ledger) && i <= r.done <= |ids|
    decreases |ids| - i
  {
    if i == |ids| then Drive(l, out, i)
    else
      var s := Plain(p, key, l, attempts[i].actAt, attempts[i].accepted);
      if s.ok then PlainDrive(p, key, stopOnFailure, s.ledger, ids, attempts, i + 1, out + [ids[i]])
      else if stopOnFailure then Drive(s.ledger, out, i)
      else PlainDrive(p, key, stopOnFailure, s.ledger, ids, attempts, i + 1, out)
  }

  /** `xs` is a subsequence of `ys` (matched from the end). */
  predicate Subseq<T(==)>(xs: seq<T>, ys: seq<T>)
    decreases |ys|
  {
    if xs == [] then true
    else if ys == [] then false
    else if xs[|xs| - 1] == ys[|ys| - 1] then Subseq(xs[..|xs| - 1], ys[..|ys| - 1])
    else Subseq(xs, ys[..|ys| - 1])
  }

  lemma {:induction false} SubseqDropLast<T>(xs: seq<T>, ys: seq<T>)
    requires xs != [] && Subseq(xs, ys)
    ensures Subseq(xs[..|xs| - 1], ys)
    decreases |ys|, 0
  {
    if xs[|xs| - 1] == ys[|ys| - 1] {
      SubseqExtend(xs[..|xs| - 1], ys[..|ys| - 1], ys[|ys| - 1]);
      assert ys[..|ys| - 1] + [ys[|ys| - 1]] == ys;
    } else {
      SubseqDropLast(xs, ys[..|ys| - 1]);
      SubseqExtend(xs[..|xs| - 1], ys[..|ys| - 1], ys[|ys| - 1]);
      assert ys[..|ys| - 1] + [ys[|ys| - 1]] == ys;
    }
  }

  /** A subsequence stays one when the longer sequence grows. */
  lemma {:induction false} SubseqExtend<T>(xs: seq<T>, ys: seq<T>, y: T)
    requires Subseq(xs, ys)
    ensures Subseq(xs, ys + [y])
    decreases |ys|, 1
  {
    var zs := ys + [y];
    assert zs[..|zs| - 1] == ys;
    if xs != [] && xs[|xs| - 1] == y {
      SubseqDropLast(xs, ys);
    }
  }

  /** Appending to both keeps a subsequence. */
  lemma SubseqBoth<T>(xs: seq<T>, ys: seq<T>, y: T)
    requires Subseq(xs, ys)
    ensures Subseq(xs + [y], ys + [y])
  {
    var zs := ys + [y];
    assert zs[..|zs| - 1] == ys;
    assert (xs + [y])[..|xs|] == xs;
  }

  /** A subsequence stays one when anything is appended to the longer sequence. */
  lemma {:induction false} SubseqGrow<T>(xs: seq<T>, ys: seq<T>, zs: seq<T>)
    requires Subseq(xs, ys)
    ensures Subseq(xs, ys + zs)
    decreases |zs|
  {
    if zs != [] {
      SubseqExtend(xs, ys, zs[0]);
      SubseqGrow(xs, ys + [zs[0]], zs[1..]);
      assert ys + [zs[0]] + zs[1..] == ys + zs;
    } else {
      assert ys + zs == ys;
    }
  }

  /** A subsequence is no longer than the sequence. */
  lemma {:induction false} SubseqShorter<T>(xs: seq<T>, ys: seq<T>)
    requires Subseq(xs, ys)
    ensures |xs| <= |ys|
    decreases |ys|
  {
    if xs != [] {
      if xs[|xs| - 1] == ys[|ys| - 1] {
        SubseqShorter(xs[..|xs| - 1], ys[..|ys| - 1]);
      } else {
        SubseqShorter(xs, ys[..|ys| - 1]);
      }
    }
  }

  /** Subsequences of two sequences, end to end, make a subsequence of the two end to end. */
  lemma {:induction false} SubseqConcat<T>(a: seq<T>, b: seq<T>, c: seq<T>, d: seq<T>)
    requires Subseq(a, b) && Subseq(c, d)
    ensures Subseq(a + c, b + d)
    decreases |d|
  {
    if c == [] {
      assert a + c == a;
      SubseqGrow(a, b, d);
    } else {
      var c', d' := c[..|c| - 1], d[..|d| - 1];
      assert a + c == (a + c') + [c[|c| - 1]];
      assert b + d == (b + d') + [d[|d| - 1]];
      if c[|c| - 1] == d[|d| - 1] {
        SubseqConcat(a, b, c', d');
        SubseqBoth(a + c', b + d', c[|c| - 1]);
      } else {
        SubseqConcat(a, b, c, d');
        SubseqExtend(a + c, b + d', d[|d| - 1]);
      }
    }
  }

  /**
   * likeMedias, followUsers and unfollowUsers emit a subsequence of the ids in
   * their order, and they stop before the end only on an exhausted quota.
   */
  lemma {:induction false} QuotaDriveOrder(p: Policy, key: string, l: Ledger, ids: seq<string>,
                                           attempts: seq<Attempt>, i: nat, out: seq<string>)
    requires Tracks(l) && key in p.max && key in l.totals && |attempts| >= |ids| && i <= |ids|
    requires Subseq(out, ids[..i])
    ensures Subseq(QuotaDrive(p, key, l, ids, attempts, i, out).out, ids[..QuotaDrive(p, key, l, ids, attempts, i, out).done])
    ensures QuotaDrive(p, key, l, ids, attempts, i, out).done < |ids| ==>
              OutOfQuota(p, QuotaDrive(p, key, l, ids, attempts, i, out).ledger, key)
    decreases |ids| - i
  {
    if i < |ids| {
      var l1 := Refresh(l, attempts[i].checkAt);
      if !OutOfQuota(p, l1, key) {
        var s := Gate(p, key, l1, attempts[i].actAt, attempts[i].reply, false);
        assert ids[..i + 1] == ids[..i] + [ids[i]];
        if s.ok {
          SubseqBoth(out, ids[..i], ids[i]);
        } else {
          SubseqExtend(out, ids[..i], ids[i]);
        }
        QuotaDriveOrder(p, key, s.ledger, ids, attempts, i + 1, (if s.ok then out + [ids[i]] else out));
      }
    }
  }

  /** One element of a plain drive. */
  lemma PlainDriveStep(p: Policy, key: string, stopOnFailure: bool, l: Ledger, ids: seq<string>,
                       attempts: seq<Attempt>, i: nat, out: seq<string>)
    requires Tracks(l) && key in p.max && key in l.totals && |attempts| >= |ids| && i < |ids|
    ensures var s := Plain(p, key, l, attempts[i].actAt, attempts[i].accepted);
            PlainDrive(p, key, stopOnFailure, l, ids, attempts, i, out) ==
              if s.ok then PlainDrive(p, key, stopOnFailure, s.ledger, ids, attempts, i + 1, out + [ids[i]])
              else if stopOnFailure then Drive(s.ledger, out, i)
              else PlainDrive(p, key, stopOnFailure, s.ledger, ids, attempts, i + 1, out)
  {
  }

  /** blockUsers emits exactly the ids before the first failure, and stops there. */
  lemma {:induction false} BlockDrivePrefix(p: Policy, key: string, l: Ledger, ids: seq<string>,
                                            attempts: seq<Attempt>, i: nat, out: seq<string>)
    requires Tracks(l) && key in p.max && key in l.totals && |attempts| >= |ids| && i <= |ids|
    requires out == ids[..i]
    ensures PlainDrive(p, key, true, l, ids, attempts, i, out).out == ids[..PlainDrive(p, key, true, l, ids, attempts, i, out).done]
    decreases |ids| - i
  {
    if i < |ids| {
      var s := Plain(p, key, l, attempts[i].actAt, attempts[i].accepted);
      if s.ok {
        assert ids[..i + 1] == ids[..i] + [ids[i]];
        BlockDrivePrefix(p, key, s.ledger, ids, attempts, i + 1, out + [ids[i]]);
      }
    }
  }

  /** unblockUsers goes through every id, emitting a subsequence of them. */
  lemma {:induction false} UnblockDriveAll(p: Policy, key: string, l: Ledger, ids: seq<string>,
                                           attempts: seq<Attempt>, i: nat, out: seq<string>)
    requires Tracks(l) && key in p.max && key in l.totals && |attempts| >= |ids| && i <= |ids|
    requires Subseq(out, ids[..i])
    ensures PlainDrive(p, key, false, l, ids, attempts, i, out).done == |ids|
    ensures Subseq(PlainDrive(p, key, false, l, ids, attempts, i, out).out, ids)
    decreases |ids| - i
  {
    if i < |ids| {
      var s := Plain(p, key, l, attempts[i].actAt, attempts[i].accepted);
      assert ids[..i + 1] == ids[..i] + [ids[i]];
      if s.ok {
        SubseqBoth(out, ids[..i], ids[i]);
        UnblockDriveAll(p, key, s.ledger, ids, attempts, i + 1, out + [ids[i]]);
      } else {
        SubseqExtend(out, ids[..i], ids[i]);
        UnblockDriveAll(p, key, s.ledger, ids, attempts, i + 1, out);
      }
    } else {
      assert ids[..i] == ids;
    }
  }

  /** Every instant of the run is later than the one before. */
  predicate Increasing(attempts: seq<Attempt>)
    decreases |attempts|
  {
    attempts != [] ==>
      attempts[0].checkAt < attempts[0].actAt &&
      (|attempts| > 1 ==> attempts[0].actAt < attempts[1].checkAt) &&
      Increasing(attempts[1..])
  }

  /**
   * As written, the quota never stops a driver whose daily maximum is
   * positive: on a clock that moves forward every check resets the counters,
   * so the driver goes through every id.
   */
  lemma {:induction false} QuotaNeverStopsDriver(p: Policy, key: string, l: Ledger, ids: seq<string>,
                                                 attempts: seq<Attempt>, i: nat, out: seq<string>)
    requires Tracks(l) && key in p.max && key in l.totals && |attempts| >= |ids| && i <= |ids|
    requires p.max[key] > 0 && Increasing(attempts[i..])
    requires i < |ids| ==> l.startTime < attempts[i].checkAt
    ensures QuotaDrive(p, key, l, ids, attempts, i, out).done == |ids|
    decreases |ids| - i
  {
    if i < |ids| {
      assert attempts[i..][0] == attempts[i] && attempts[i..][1..] == attempts[i + 1..];
      assert i + 1 < |ids| ==> attempts[i..][1] == attempts[i + 1];
      var l', out' := NeverStopsStep(p, key, l, ids, attempts, i, out);
      QuotaNeverStopsDriver(p, key, l', ids, attempts, i + 1, out');
      assert QuotaDrive(p, key, l, ids, attempts, i, out).done == |ids|;
    } else {
      assert QuotaDrive(p, key, l, ids, attempts, i, out).done == |ids|;
    }
  }

  /** One element of QuotaNeverStopsDriver: the quota check passes and the gate leaves the clock at its instant. */
  lemma NeverStopsStep(p: Policy, key: string, l: Ledger, ids: seq<string>, attempts: seq<Attempt>,
                       i: nat, out: seq<string>) returns (l': Ledger, out': seq<string>)
    requires Tracks(l) && key in p.max && key in l.totals && |attempts| >= |ids| && i < |ids|
    requires p.max[key] > 0 && l.startTime < attempts[i].checkAt < attempts[i].actAt
    ensures Tracks(l') && key in l'.totals && l'.startTime == attempts[i].actAt
    ensures QuotaDrive(p, key, l, ids, attempts, i, out) == QuotaDrive(p, key, l', ids, attempts, i + 1, out')
  {
    var a := attempts[i];
    var l1 := Refresh(l, a.checkAt);
    QuotaDriveStep(p, key, l, ids, attempts, i, out);
    QuotaOnlyBindsAtZero(p, l, key, a.checkAt);
    var s := Gate(p, key, l1, a.actAt, a.reply, false);
    l', out' := s.ledger, (if s.ok then out + [ids[i]] else out);
  }

  // ---------------------------------------------------------------------------
  // watchUsersStories: the unseen filter
  // ---------------------------------------------------------------------------

  /** A reel of getUsersStories: its `seen` (None when the key is absent) and its `items` array. */
  datatype ReelBox = ReelBox(seen: Option<Scalar>, items: Option<seq<Story>>)

  /** `read<Long>("$.seen")!!`, or 0 without the key; None where `!!` throws. */
  function LastSeen(b: ReelBox): Option<int> {
    if b.seen.None? then Some(0) else b.seen.value.AsLong()
  }

  /** `read<Long>("$.taken_at")!!`; None where `!!` throws. */
  function TakenAt(s: Story): Option<int> {
    if s.takenAt.Some? then s.takenAt.value.AsLong() else None
  }

  /** The items of a reel; none when the array is absent. */
  function Items(b: ReelBox): seq<Story> {
    b.items.GetOr([])
  }

  /** The stories of `items`, in order, taken after `seenAt`; None where a `taken_at` is missing. */
  function Fresh(items: seq<Story>, seenAt: int): Option<seq<Story>>
    decreases |items|
  {
    if items == [] then Some([])
    else
      match Fresh(items[..|items| - 1], seenAt)
      case None => None
      case Some(f) =>
        var s := items[|items| - 1];
        match TakenAt(s)
        case None => None
        case Some(t) => Some(if t > seenAt then f + [s] else f)
  }

  /** The unseen stories of all reels, reel by reel; None where a `!!` throws. */
  function Unseen(boxes: seq<ReelBox>): Option<seq<Story>>
    decreases |boxes|
  {
    if boxes == [] then Some([])
    else
      match Unseen(boxes[..|boxes| - 1])
      case None => None
      case Some(u) =>
        var b := boxes[|boxes| - 1];
        match LastSeen(b)
        case None => None
        case Some(seenAt) =>
          match Fresh(Items(b), seenAt)
          case None => None
          case Some(f) => Some(u + f)
  }

  /** The stories of all reels, reel after reel. */
  function AllItems(boxes: seq<ReelBox>): seq<Story>
    decreases |boxes|
  {
    if boxes == [] then [] else AllItems(boxes[..|boxes| - 1]) + Items(boxes[|boxes| - 1])
  }

  /** The number of stories in all reels. */
  function ItemCount(boxes: seq<ReelBox>): nat {
    |AllItems(boxes)|
  }

  /** Whether story `s` counts as unseen in a reel last seen at `seenAt`. */
  predicate TakenAfter(s: Story, seenAt: int) {
    TakenAt(s).Some? && TakenAt(s).value > seenAt
  }

  /** How many times `s` occurs, over all reels, in a reel it was taken after. */
  function UnseenCount(boxes: seq<ReelBox>, s: Story): nat
    decreases |boxes|
  {
    if boxes == [] then 0
    else
      var b := boxes[|boxes| - 1];
      UnseenCount(boxes[..|boxes| - 1], s) +
      (if LastSeen(b).Some? && TakenAfter(s, LastSeen(b).value) then multiset(Items(b))[s] else 0)
  }

  /** No `!!` of the filter throws: every `seen` present is a Long, every story has a Long `taken_at`. */
  predicate Readable(boxes: seq<ReelBox>) {
    forall i | 0 <= i < |boxes| ::
      LastSeen(boxes[i]).Some? && forall k | 0 <= k < |Items(boxes[i])| :: TakenAt(Items(boxes[i])[k]).Some?
  }

  /** `s` is a story of reel `b` taken after the reel was last seen. */
  predicate IsUnseen(b: ReelBox, s: Story) {
    s in Items(b) && TakenAt(s).Some? && LastSeen(b).Some? && TakenAt(s).value > LastSeen(b).value
  }

  /**
   * The fresh stories of one reel: the filter throws exactly when a taken_at is
   * missing; otherwise it keeps, in their order, the stories taken after
   * `seenAt`, each as often as the reel holds it, and drops the others.
   */
  lemma {:induction false} FreshSpec(items: seq<Story>, seenAt: int)
    ensures Fresh(items, seenAt).Some? <==> forall k | 0 <= k < |items| :: TakenAt(items[k]).Some?
    ensures Fresh(items, seenAt).Some? ==>
              Subseq(Fresh(items, seenAt).value, items) &&
              (forall s :: multiset(Fresh(items, seenAt).value)[s] ==
                             if TakenAfter(s, seenAt) then multiset(items)[s] else 0) &&
              forall s :: s in Fresh(items, seenAt).value <==> s in items && TakenAt(s).value > seenAt
    decreases |items|
  {
    if items != [] {
      var front, s := items[..|items| - 1], items[|items| - 1];
      FreshSpec(front, seenAt);
      assert items == front + [s];
      assert forall k | 0 <= k < |front| :: front[k] == items[k];
      if Fresh(items, seenAt).Some? {
        var f := Fresh(front, seenAt).value;
        if TakenAfter(s, seenAt) {
          SubseqBoth(f, front, s);
        } else {
          SubseqExtend(f, front, s);
        }
      }
    }
  }

  /** watchUsersStories throws exactly when a `seen` or a `taken_at` cannot be read. */
  lemma {:induction false} UnseenReadable(boxes: seq<ReelBox>)
    ensures Unseen(boxes).Some? <==> Readable(boxes)
    decreases |boxes|
  {
    if boxes != [] {
      var front, b := boxes[..|boxes| - 1], boxes[|boxes| - 1];
      UnseenReadable(front);
      assert forall i | 0 <= i < |front| :: front[i] == boxes[i];
      if LastSeen(b).Some? {
        FreshSpec(Items(b), LastSeen(b).value);
      }
      if Unseen(boxes).None? {
        if Unseen(front).Some? && LastSeen(b).Some? {
          var k :| 0 <= k < |Items(b)| && TakenAt(Items(b)[k]).None?;
          assert !Readable(boxes) by {
            assert boxes[|boxes| - 1] == b;
          }
        } else if Unseen(front).Some? {
          assert !Readable(boxes) by {
            assert boxes[|boxes| - 1] == b;
          }
        } else {
          var i :| 0 <= i < |front| && !(LastSeen(front[i]).Some? &&
                     forall k | 0 <= k < |Items(front[i])| :: TakenAt(Items(front[i])[k]).Some?);
          assert !Readable(boxes) by {
            assert boxes[i] == front[i];
          }
        }
      }
    }
  }

  /**
   * watchUsersStories collects, reel after reel and in each reel's order, the
   * stories taken after their reel was last seen, each as often as it occurs
   * in such a reel, and nothing else.
   */
  lemma {:induction false} UnseenSpec(boxes: seq<ReelBox>)
    requires Unseen(boxes).Some?
    ensures Subseq(Unseen(boxes).value, AllItems(boxes))
    ensures forall s :: multiset(Unseen(boxes).value)[s] == UnseenCount(boxes, s)
    ensures forall s :: s in Unseen(boxes).value <==> exists i | 0 <= i < |boxes| :: IsUnseen(boxes[i], s)
    decreases |boxes|
  {
    if boxes == [] {
      assert Subseq([], AllItems(boxes));
    } else {
      var front, b := boxes[..|boxes| - 1], boxes[|boxes| - 1];
      UnseenSpec(front);
      FreshSpec(Items(b), LastSeen(b).value);
      var u := Unseen(front).value;
      var f := Fresh(Items(b), LastSeen(b).value).value;
      assert Unseen(boxes).value == u + f;
      SubseqConcat(u, AllItems(front), f, Items(b));
      forall s ensures s in u + f <==> exists i | 0 <= i < |boxes| :: IsUnseen(boxes[i], s) {
        if s in f {
          assert IsUnseen(boxes[|boxes| - 1], s);
        }
        if s in u {
          var i :| 0 <= i < |front| && IsUnseen(front[i], s);
          assert IsUnseen(boxes[i], s) by { assert boxes[i] == front[i]; }
        }
        if exists i | 0 <= i < |boxes| :: IsUnseen(boxes[i], s) {
          var i :| 0 <= i < |boxes| && IsUnseen(boxes[i], s);
          if i < |front| {
            assert IsUnseen(front[i], s) by { assert boxes[i] == front[i]; }
          }
        }
      }
    }
  }

  /** The loops of watchUsersStories: reel by reel, story by story. */
  method CollectUnseen(boxes: seq<ReelBox>) returns (r: Option<seq<Story>>)
    ensures r == Unseen(boxes)
  {
    var unseen: seq<Story> := [];
    for i := 0 to |boxes|
      invariant Unseen(boxes[..i]) == Some(unseen)
    {
      var b := boxes[i];
      assert boxes[..i + 1][..i] == boxes[..i];
      var seenAt := LastSeen(b);
      if seenAt.None? {
        UnseenStuck(boxes, i + 1);
        return None;
      }
      var items := Items(b);
      var taken: seq<Story> := [];
      for k := 0 to |items|
        invariant Fresh(items[..k], seenAt.value) == Some(taken)
      {
        assert items[..k + 1][..k] == items[..k];
        var t := TakenAt(items[k]);
        if t.None? {
          FreshStuck(items, seenAt.value, k + 1);
          assert Unseen(boxes[..i + 1]).None?;
          UnseenStuck(boxes, i + 1);
          return None;
        }
        if t.value > seenAt.value {
          taken := taken + [items[k]];
        }
      }
      assert items[..|items|] == items;
      unseen := unseen + taken;
    }
    assert boxes[..|boxes|] == boxes;
    return Some(unseen);
  }

  /** Once a prefix of the reels throws, the whole filter throws. */
  lemma {:induction false} UnseenStuck(boxes: seq<ReelBox>, j: nat)
    requires j <= |boxes| && Unseen(boxes[..j]).None?
    ensures Unseen(boxes).None?
    decreases |boxes| - j
  {
    if j < |boxes| {
      assert boxes[..j + 1][..j] == boxes[..j];
      UnseenStuck(boxes, j + 1);
    } else {
      assert boxes[..j] == boxes;
    }
  }

  /** Once a prefix of a reel's stories throws, the whole reel throws. */
  lemma {:induction false} FreshStuck(items: seq<Story>, seenAt: int, j: nat)
    requires j <= |items| && Fresh(items[..j], seenAt).None?
    ensures Fresh(items, seenAt).None?
    decreases |items| - j
  {
    if j < |items| {
      assert items[..j + 1][..j] == items[..j];
      FreshStuck(items, seenAt, j + 1);
    } else {
      assert items[..j] == items;
    }
  }

  // ---------------------------------------------------------------------------
  // The feed loops of InstagramBot.kt
  // ---------------------------------------------------------------------------

  /**
   * getTimelineMedias, getMediaComments and getMediaCommenter: a failed
   * request ends the flow, an absent array is an empty one, and an absent or
   * non-string `next_max_id` keeps the previous cursor.
   */
  const BOT_FEED: Loop := Loop(false, false, false, StringOrKeep)

  /** getTimelineMedias emits and counts the `media_or_ad` of a feed item, and skips an item without one. */
  function EmitMediaOrAd(x: Element): (r: Visit<Value>)
    ensures x.mediaOrAd.None? <==> r == Skip
    ensures x.mediaOrAd.Some? ==> r == Count(x.mediaOrAd)
  {
    if x.mediaOrAd.Some? then Count(x.mediaOrAd) else Skip
  }

  /** getMediaCommenter emits and counts the `user` of a comment, and skips a comment without one. */
  function EmitCommenter(x: Element): (r: Visit<Value>)
    ensures x.user.None? <==> r == Skip
    ensures x.user.Some? ==> r == Count(x.user)
  {
    if x.user.Some? then Count(x.user) else Skip
  }

  /** getTimelineMedias (`more_available` is the continuation flag). */
  method GetTimelineMedias(amount: int, pages: seq<Page<Element>>) returns (w: Walk<Value>)
    ensures w == Start(BOT_FEED, EmitMediaOrAd, amount, pages)
    ensures |w.out| <= Max(amount, 1)
    ensures w.out <= Emits(EmitMediaOrAd, Flat(BOT_FEED, pages))
    ensures forall o | o in w.out :: Produced(BOT_FEED, EmitMediaOrAd, pages, |w.cursors|, o)
    ensures StopsFor(BOT_FEED, EmitMediaOrAd, amount, pages, w)
    ensures ContinuesFrom(BOT_FEED, pages, 0) ==>
              var all := Flat(BOT_FEED, pages);
              var m := Counts(EmitMediaOrAd, all);
              w.out == Emits(EmitMediaOrAd, TakeCounted(EmitMediaOrAd, all, Max(amount, 1))) &&
              |w.out| == (if Max(amount, 1) < m then Max(amount, 1) else m) &&
              w.end == (if m >= Max(amount, 1) then Finished else Exhausted)
  {
    w := Paginate(BOT_FEED, EmitMediaOrAd, amount, pages);
    StartFacts(BOT_FEED, EmitMediaOrAd, amount, pages);
    if ContinuesFrom(BOT_FEED, pages, 0) {
      var all := Flat(BOT_FEED, pages);
      assert NoFail(EmitMediaOrAd, all);
      StartTake(BOT_FEED, EmitMediaOrAd, amount, pages);
      StartCount(BOT_FEED, EmitMediaOrAd, amount, pages);
    }
  }

  /** getMediaComments (`has_more_comments` is the continuation flag). */
  method GetMediaComments(amount: int, pages: seq<Page<Element>>) returns (w: Walk<Value>)
    ensures w == Start(BOT_FEED, EmitBody, amount, pages)
    ensures |w.out| <= Max(amount, 1)
    ensures w.out <= Emits(EmitBody, Flat(BOT_FEED, pages))
    ensures forall o | o in w.out :: Produced(BOT_FEED, EmitBody, pages, |w.cursors|, o)
    ensures StopsFor(BOT_FEED, EmitBody, amount, pages, w)
    ensures ContinuesFrom(BOT_FEED, pages, 0) ==>
              var n := |Flat(BOT_FEED, pages)|;
              |w.out| == (if Max(amount, 1) < n then Max(amount, 1) else n) &&
              w.end == (if n >= Max(amount, 1) then Finished else Exhausted)
    ensures CursorsFollow(StringOrKeep, pages, w.cursors)
  {
    w := Paginate(BOT_FEED, EmitBody, amount, pages);
    StartFacts(BOT_FEED, EmitBody, amount, pages);
    StartCursors(BOT_FEED, EmitBody, amount, pages);
    if ContinuesFrom(BOT_FEED, pages, 0) {
      EveryBodyCounted(BOT_FEED, amount, pages);
    }
  }

  /** getMediaCommenter */
  method GetMediaCommenter(amount: int, pages: seq<Page<Element>>) returns (w: Walk<Value>)
    ensures w == Start(BOT_FEED, EmitCommenter, amount, pages)
    ensures |w.out| <= Max(amount, 1)
    ensures w.out <= Emits(EmitCommenter, Flat(BOT_FEED, pages))
    ensures forall o | o in w.out :: Produced(BOT_FEED, EmitCommenter, pages, |w.cursors|, o)
    ensures StopsFor(BOT_FEED, EmitCommenter, amount, pages, w)
    ensures ContinuesFrom(BOT_FEED, pages, 0) ==>
              var all := Flat(BOT_FEED, pages);
              var m := Counts(EmitCommenter, all);
              w.out == Emits(EmitCommenter, TakeCounted(EmitCommenter, all, Max(amount, 1))) &&
              |w.out| == (if Max(amount, 1) < m then Max(amount, 1) else m) &&
              w.end == (if m >= Max(amount, 1) then Finished else Exhausted)
  {
    w := Paginate(BOT_FEED, EmitCommenter, amount, pages);
    StartFacts(BOT_FEED, EmitCommenter, amount, pages);
    if ContinuesFrom(BOT_FEED, pages, 0) {
      var all := Flat(BOT_FEED, pages);
      assert NoFail(EmitCommenter, all);
      StartTake(BOT_FEED, EmitCommenter, amount, pages);
      StartCount(BOT_FEED, EmitCommenter, amount, pages);
    }
  }

  /**
   * A page that says there is more but carries no `next_max_id` makes the
   * bot's loops request the same cursor again.
   */
  lemma FeedRepeatsCursor(pages: seq<Page<Element>>, cursors: seq<string>, k: nat)
    requires CursorsFollow(StringOrKeep, pages, cursors) && k + 1 < |cursors| && pages[k].next.None?
    ensures cursors[k + 1] == cursors[k]
  {
  }

  /**
   * Unlike getTotalHashTagUsers, getMediaCommenter neither emits nor counts a
   * comment without a user: a userless comment leaves the run as it was.
   */
  lemma CommenterSkipsUserless(amount: int, pages: seq<Page<Element>>, x: Element)
    requires x.user.None?
    ensures EmitCommenter(x) == Skip && EmitUser(x) == Count(None)
  {
  }

  // ---------------------------------------------------------------------------
  // convertToUserId
  // ---------------------------------------------------------------------------

  /**
   * convertToUserId: a value that parses as a Long is already an id; anything
   * else is a username, looked up (`idOf`, a request) with every '@' removed.
   */
  function ConvertToUserId(value: string, idOf: string -> string): (r: string)
    ensures ParseLong(value).Some? ==> r == value
    ensures ParseLong(value).None? ==> r == idOf(Without(value, '@'))
  {
    if ParseLong(value).Some? then value else idOf(Without(value, '@'))
  }

  /** Converting twice is converting once when the lookup answers numeric ids. */
  lemma ConvertIdempotent(value: string, idOf: string -> string)
    requires forall name :: ParseLong(idOf(name)).Some?
    ensures ConvertToUserId(ConvertToUserId(value, idOf), idOf) == ConvertToUserId(value, idOf)
  {
  }

  // ---------------------------------------------------------------------------
  // The bot
  // ---------------------------------------------------------------------------

  class Bot {
    var totalActionPerformed: map<string, int>
    var blockedActions: map<string, bool>
    var sleepingActions: map<string, bool>
    var startTime: int
    const maxActionPerDays: map<string, int>
    const blockedActionProtection: bool
    const blockedActionSleep: bool
    /** `api.username`. */
    const username: string

    function Snapshot(): Ledger
      reads this
    {
      Ledger(totalActionPerformed, blockedActions, sleepingActions, startTime)
    }

    function Rules(): Policy {
      Policy(maxActionPerDays, blockedActionProtection, blockedActionSleep)
    }

    predicate Valid()
      reads this
    {
      Tracks(Snapshot()) && maxActionPerDays.Keys <= totalActionPerformed.Keys &&
      "stories_viewed" in totalActionPerformed
    }

    /** The constructor: every action at 0, not blocked, not sleeping; maxima for the eight limited actions. */
    constructor(maxLikesPerDay: int, maxUnlikesPerDay: int, maxFollowsPerDay: int, maxUnfollowsPerDay: int,
                maxCommentsPerDay: int, maxBlocksPerDay: int, maxUnblocksPerDay: int, maxMessagesPerDay: int,
                blockedActionProtection: bool, blockedActionSleep: bool, username: string, now: int)
      ensures Valid() && startTime == now
      ensures totalActionPerformed == map a | a in ACTIONS :: 0
      ensures blockedActions == map a | a in ACTIONS :: false
      ensures sleepingActions == map a | a in ACTIONS :: false
      ensures maxActionPerDays == map["likes" := maxLikesPerDay, "unlikes" := maxUnlikesPerDay,
                                      "follows" := maxFollowsPerDay, "unfollows" := maxUnfollowsPerDay,
                                      "comments" := maxCommentsPerDay, "blocks" := maxBlocksPerDay,
                                      "unblocks" := maxUnblocksPerDay, "messages" := maxMessagesPerDay]
      ensures this.blockedActionProtection == blockedActionProtection && this.blockedActionSleep == blockedActionSleep
      ensures this.username == username
    {
      totalActionPerformed := map a | a in ACTIONS :: 0;
      blockedActions := map a | a in ACTIONS :: false;
      sleepingActions := map a | a in ACTIONS :: false;
      startTime := now;
      maxActionPerDays := map["likes" := maxLikesPerDay, "unlikes" := maxUnlikesPerDay,
                              "follows" := maxFollowsPerDay, "unfollows" := maxUnfollowsPerDay,
                              "comments" := maxCommentsPerDay, "blocks" := maxBlocksPerDay,
                              "unblocks" := maxUnblocksPerDay, "messages" := maxMessagesPerDay];
      this.blockedActionProtection := blockedActionProtection;
      this.blockedActionSleep := blockedActionSleep;
      this.username := username;
    }

    /** resetCounters */
    method ResetCounters(now: int)
      requires Valid()
      modifies this
      ensures Valid() && Snapshot() == Reset(old(Snapshot()), now)
    {
      totalActionPerformed := map a | a in totalActionPerformed :: 0;
      blockedActions := map a | a in blockedActions :: false;
      startTime := now;
    }

    /** reachedLimit: `getValue` has no maximum for the untracked actions, hence the precondition. */
    method ReachedLimit(key: string, now: int) returns (r: bool)
      requires Valid() && key in maxActionPerDays
      modifies this
      ensures Valid() && Snapshot() == Refresh(old(Snapshot()), now)
      ensures r == OutOfQuota(Rules(), Snapshot(), key)
    {
      if now > startTime {
        ResetCounters(now);
      }
      r := maxActionPerDays[key] - totalActionPerformed[key] <= 0;
    }

    /** The reply handling after a gated request. */
    method Respond(key: string, reply: Option<Reply>, strict: bool) returns (ok: bool)
      requires Valid() && key in totalActionPerformed
      modifies this
      ensures Valid()
      ensures Snapshot() == React(Rules(), key, old(Snapshot()), reply, strict).ledger
      ensures ok == React(Rules(), key, old(Snapshot()), reply, strict).ok
    {
      if Message(reply) == Some("feedback_required") {
        if strict {
          blockedActions := blockedActions[key := true];
        } else if !blockedActionSleep {
          if blockedActionProtection {
            blockedActions := blockedActions[key := true];
          }
        } else if sleepingActions[key] && blockedActionProtection {
          sleepingActions := sleepingActions[key := false];
          blockedActions := blockedActions[key := true];
        } else {
          sleepingActions := sleepingActions[key := true];
        }
        ok := false;
      } else if Status(reply) == Some("ok") {
        totalActionPerformed := totalActionPerformed[key := totalActionPerformed[key] + 1];
        if blockedActionSleep && sleepingActions[key] {
          sleepingActions := sleepingActions[key := false];
        }
        ok := true;
      } else {
        ok := false;
      }
    }

    /** like / follow / unfollow (`strict` for likeComment) on the action `key`. */
    method Act(key: string, now: int, reply: Option<Reply>, strict: bool) returns (ok: bool)
      requires Valid() && key in maxActionPerDays
      modifies this
      ensures Valid()
      ensures Snapshot() == Gate(Rules(), key, old(Snapshot()), now, reply, strict).ledger
      ensures ok == Gate(Rules(), key, old(Snapshot()), now, reply, strict).ok
    {
      var limited := ReachedLimit(key, now);
      if limited || blockedActions[key] {
        ok := false;
      } else {
        ok := Respond(key, reply, strict);
      }
    }

    /** like */
    method Like(now: int, reply: Option<Reply>) returns (ok: bool)
      requires Valid() && "likes" in maxActionPerDays
      modifies this
      ensures Valid()
      ensures Snapshot() == Gate(Rules(), "likes", old(Snapshot()), now, reply, false).ledger
      ensures ok == Gate(Rules(), "likes", old(Snapshot()), now, reply, false).ok
    {
      ok := Act("likes", now, reply, false);
    }

    /** likeComment */
    method LikeComment(now: int, reply: Option<Reply>) returns (ok: bool)
      requires Valid() && "likes" in maxActionPerDays
      modifies this
      ensures Valid()
      ensures Snapshot() == Gate(Rules(), "likes", old(Snapshot()), now, reply, true).ledger
      ensures ok == Gate(Rules(), "likes", old(Snapshot()), now, reply, true).ok
    {
      ok := Act("likes", now, reply, true);
    }

    /** follow (the request goes to `convertToUserId` of the name) */
    method Follow(now: int, reply: Option<Reply>) returns (ok: bool)
      requires Valid() && "follows" in maxActionPerDays
      modifies this
      ensures Valid()
      ensures Snapshot() == Gate(Rules(), "follows", old(Snapshot()), now, reply, false).ledger
      ensures ok == Gate(Rules(), "follows", old(Snapshot()), now, reply, false).ok
    {
      ok := Act("follows", now, reply, false);
    }

    /** unfollow */
    method Unfollow(now: int, reply: Option<Reply>) returns (ok: bool)
      requires Valid() && "unfollows" in maxActionPerDays
      modifies this
      ensures Valid()
      ensures Snapshot() == Gate(Rules(), "unfollows", old(Snapshot()), now, reply, false).ledger
      ensures ok == Gate(Rules(), "unfollows", old(Snapshot()), now, reply, false).ok
    {
      ok := Act("unfollows", now, reply, false);
    }

    /** comment: `commented` is the answer of isMediaCommented. */
    method Comment(commented: bool, now: int, reply: Option<Reply>) returns (ok: bool)
      requires Valid() && "comments" in maxActionPerDays
      modifies this
      ensures Valid()
      ensures Snapshot() == Commenting(Rules(), old(Snapshot()), commented, now, reply).ledger
      ensures ok == Commenting(Rules(), old(Snapshot()), commented, now, reply).ok
    {
      if commented {
        ok := true;
      } else {
        ok := Act("comments", now, reply, false);
      }
    }

    /** unlike / block / unblock on the action `key`. */
    method PlainAct(key: string, now: int, accepted: bool) returns (ok: bool)
      requires Valid() && key in maxActionPerDays
      modifies this
      ensures Valid()
      ensures Snapshot() == Plain(Rules(), key, old(Snapshot()), now, accepted).ledger
      ensures ok == Plain(Rules(), key, old(Snapshot()), now, accepted).ok
    {
      var limited := ReachedLimit(key, now);
      if !limited && accepted {
        totalActionPerformed := totalActionPerformed[key := totalActionPerformed[key] + 1];
        ok := true;
      } else {
        ok := false;
      }
    }

    /** unlike */
    method Unlike(now: int, accepted: bool) returns (ok: bool)
      requires Valid() && "unlikes" in maxActionPerDays
      modifies this
      ensures Valid()
      ensures Snapshot() == Plain(Rules(), "unlikes", old(Snapshot()), now, accepted).ledger
      ensures ok == Plain(Rules(), "unlikes", old(Snapshot()), now, accepted).ok
    {
      ok := PlainAct("unlikes", now, accepted);
    }

    /** block */
    method Block(now: int, accepted: bool) returns (ok: bool)
      requires Valid() && "blocks" in maxActionPerDays
      modifies this
      ensures Valid()
      ensures Snapshot() == Plain(Rules(), "blocks", old(Snapshot()), now, accepted).ledger
      ensures ok == Plain(Rules(), "blocks", old(Snapshot()), now, accepted).ok
    {
      ok := PlainAct("blocks", now, accepted);
    }

    /** unblock */
    method Unblock(now: int, accepted: bool) returns (ok: bool)
      requires Valid() && "unblocks" in maxActionPerDays
      modifies this
      ensures Valid()
      ensures Snapshot() == Plain(Rules(), "unblocks", old(Snapshot()), now, accepted).ledger
      ensures ok == Plain(Rules(), "unblocks", old(Snapshot()), now, accepted).ok
    {
      ok := PlainAct("unblocks", now, accepted);
    }

    /** replyToComment: None where the empty text throws. */
    method ReplyToComment(commented: bool, now: int, text: string, reply: Option<Reply>) returns (r: Option<bool>)
      requires Valid() && "comments" in maxActionPerDays
      modifies this
      ensures Valid()
      ensures Snapshot() == Replying(Rules(), old(Snapshot()), commented, now, text, username, reply).step.ledger
      ensures r == (if Replying(Rules(), old(Snapshot()), commented, now, text, username, reply).threw then None
                    else Some(Replying(Rules(), old(Snapshot()), commented, now, text, username, reply).step.ok))
    {
      if !commented {
        return Some(false);
      }
      var limited := ReachedLimit("comments", now);
      if limited || blockedActions["comments"] {
        return Some(false);
      }
      var check := MentionCheck(text, username);
      if check.None? {
        return None;
      }
      if !check.value || Message(reply) == Some("feedback_required") || Status(reply) != Some("ok") {
        return Some(false);
      }
      totalActionPerformed := totalActionPerformed["comments" := totalActionPerformed["comments"] + 1];
      return Some(true);
    }

    /** likeMedias / followUsers / unfollowUsers on the action `key` with its gate. */
    method QuotaDriver(key: string, ids: seq<string>, attempts: seq<Attempt>) returns (out: seq<string>)
      requires Valid() && key in maxActionPerDays && |attempts| >= |ids|
      modifies this
      ensures Valid()
      ensures Snapshot() == QuotaDrive(Rules(), key, old(Snapshot()), ids, attempts, 0, []).ledger
      ensures out == QuotaDrive(Rules(), key, old(Snapshot()), ids, attempts, 0, []).out
    {
      out := [];
      var i := 0;
      ghost var goal := QuotaDrive(Rules(), key, Snapshot(), ids, attempts, 0, []);
      while i < |ids|
        invariant Valid() && i <= |ids|
        invariant QuotaDrive(Rules(), key, Snapshot(), ids, attempts, i, out) == goal
        decreases |ids| - i
      {
        ghost var before, emitted := Snapshot(), out;
        assert QuotaDrive(Rules(), key, before, ids, attempts, i, emitted) == goal;
        QuotaDriveStep(Rules(), key, before, ids, attempts, i, out);
        var limited := ReachedLimit(key, attempts[i].checkAt);
        ghost var checked := Snapshot();
        if limited {
          return;
        }
        var ok := Act(key, attempts[i].actAt, attempts[i].reply, false);
        ghost var s := Gate(Rules(), key, checked, attempts[i].actAt, attempts[i].reply, false);
        assert Snapshot() == s.ledger && ok == s.ok;
        if ok {
          out := out + [ids[i]];
        }
        i := i + 1;
        assert QuotaDrive(Rules(), key, Snapshot(), ids, attempts, i, out) ==
               QuotaDrive(Rules(), key, before, ids, attempts, i - 1, emitted);
      }
    }

    /** likeMedias */
    method LikeMedias(mediaIds: seq<string>, attempts: seq<Attempt>) returns (out: seq<string>)
      requires Valid() && "likes" in maxActionPerDays && |attempts| >= |mediaIds|
      modifies this
      ensures Valid()
      ensures Snapshot() == QuotaDrive(Rules(), "likes", old(Snapshot()), mediaIds, attempts, 0, []).ledger
      ensures out == QuotaDrive(Rules(), "likes", old(Snapshot()), mediaIds, attempts, 0, []).out
      ensures Subseq(out, mediaIds)
    {
      ghost var before := Snapshot();
      out := QuotaDriver("likes", mediaIds, attempts);
      QuotaOrder(Rules(), "likes", before, mediaIds, attempts);
    }

    /** followUsers */
    method FollowUsers(usernames: seq<string>, attempts: seq<Attempt>) returns (out: seq<string>)
      requires Valid() && "follows" in maxActionPerDays && |attempts| >= |usernames|
      modifies this
      ensures Valid()
      ensures Snapshot() == QuotaDrive(Rules(), "follows", old(Snapshot()), usernames, attempts, 0, []).ledger
      ensures out == QuotaDrive(Rules(), "follows", old(Snapshot()), usernames, attempts, 0, []).out
      ensures Subseq(out, usernames)
    {
      ghost var before := Snapshot();
      out := QuotaDriver("follows", usernames, attempts);
      QuotaOrder(Rules(), "follows", before, usernames, attempts);
    }

    /** unfollowUsers */
    method UnfollowUsers(usernames: seq<string>, attempts: seq<Attempt>) returns (out: seq<string>)
      requires Valid() && "unfollows" in maxActionPerDays && |attempts| >= |usernames|
      modifies this
      ensures Valid()
      ensures Snapshot() == QuotaDrive(Rules(), "unfollows", old(Snapshot()), usernames, attempts, 0, []).ledger
      ensures out == QuotaDrive(Rules(), "unfollows", old(Snapshot()), usernames, attempts, 0, []).out
      ensures Subseq(out, usernames)
    {
      ghost var before := Snapshot();
      out := QuotaDriver("unfollows", usernames, attempts);
      QuotaOrder(Rules(), "unfollows", before, usernames, attempts);
    }

    /** blockUsers (`stopOnFailure`) and unblockUsers on the action `key`. */
    method PlainDriver(key: string, stopOnFailure: bool, ids: seq<string>, attempts: seq<Attempt>)
      returns (out: seq<string>)
      requires Valid() && key in maxActionPerDays && |attempts| >= |ids|
      modifies this
      ensures Valid()
      ensures Snapshot() == PlainDrive(Rules(), key, stopOnFailure, old(Snapshot()), ids, attempts, 0, []).ledger
      ensures out == PlainDrive(Rules(), key, stopOnFailure, old(Snapshot()), ids, attempts, 0, []).out
    {
      out := [];
      var i := 0;
      ghost var goal := PlainDrive(Rules(), key, stopOnFailure, Snapshot(), ids, attempts, 0, []);
      while i < |ids|
        invariant Valid() && i <= |ids|
        invariant PlainDrive(Rules(), key, stopOnFailure, Snapshot(), ids, attempts, i, out) == goal
        decreases |ids| - i
      {
        ghost var before := Snapshot();
        PlainDriveStep(Rules(), key, stopOnFailure, before, ids, attempts, i, out);
        var ok := PlainAct(key, attempts[i].actAt, attempts[i].accepted);
        ghost var s := Plain(Rules(), key, before, attempts[i].actAt, attempts[i].accepted);
        assert Snapshot() == s.ledger && ok == s.ok;
        if ok {
          out := out + [ids[i]];
        } else if stopOnFailure {
          return;
        }
        i := i + 1;
      }
    }

    /** blockUsers: the ids up to the first failure. */
    method BlockUsers(usernames: seq<string>, attempts: seq<Attempt>) returns (out: seq<string>)
      requires Valid() && "blocks" in maxActionPerDays && |attempts| >= |usernames|
      modifies this
      ensures Valid()
      ensures Snapshot() == PlainDrive(Rules(), "blocks", true, old(Snapshot()), usernames, attempts, 0, []).ledger
      ensures out == PlainDrive(Rules(), "blocks", true, old(Snapshot()), usernames, attempts, 0, []).out
      ensures out <= usernames
    {
      ghost var before := Snapshot();
      out := PlainDriver("blocks", true, usernames, attempts);
      BlockDrivePrefix(Rules(), "blocks", before, usernames, attempts, 0, []);
    }

    /** unblockUsers: every id is tried. */
    method UnblockUsers(usernames: seq<string>, attempts: seq<Attempt>) returns (out: seq<string>)
      requires Valid() && "unblocks" in maxActionPerDays && |attempts| >= |usernames|
      modifies this
      ensures Valid()
      ensures Snapshot() == PlainDrive(Rules(), "unblocks", false, old(Snapshot()), usernames, attempts, 0, []).ledger
      ensures out == PlainDrive(Rules(), "unblocks", false, old(Snapshot()), usernames, attempts, 0, []).out
      ensures Subseq(out, usernames)
    {
      ghost var before := Snapshot();
      out := PlainDriver("unblocks", false, usernames, attempts);
      UnblockDriveAll(Rules(), "unblocks", before, usernames, attempts, 0, []);
    }

    /**
     * watchUsersStories: the unseen stories of the reels (what getUsersStories
     * emits for the users, given here), added to `stories_viewed`, then watched
     * through the API object. `jitters` are the random instants of watchReels.
     */
    method WatchUsersStories(api: Api.InstagramApi, boxes: seq<ReelBox>, nowMillis: int, jitters: seq<int>,
                             watchRoute: string, x: Api.Reaction) returns (r: Api.Outcome<bool>)
      requires Valid() && api.Valid() && ItemCount(boxes) <= |jitters|
      modifies this, api.request`url, api.request`data, api.request`isGet, api.request`headers,
               api.request`persistedCookies, api.session`totalRequests, api.session`lastResponse,
               api.session`statusCode, api.session`lastJSON, api.disk
      ensures Valid() && api.Valid()
      ensures Unseen(boxes).None? ==>
                r == Api.Throws("NullPointerException") && Snapshot() == old(Snapshot()) && api.Wire() == old(api.Wire())
      ensures Unseen(boxes).Some? ==>
                var viewed := old(totalActionPerformed["stories_viewed"]) + |Unseen(boxes).value|;
                Snapshot() == old(Snapshot()).(totals := old(totalActionPerformed)["stories_viewed" := viewed])
      ensures Unseen(boxes).Some? && |Unseen(boxes).value| <= |jitters| &&
              WatchReport(nowMillis, Unseen(boxes).value, jitters).Failure? ==>
                r == Api.Throws(WatchReport(nowMillis, Unseen(boxes).value, jitters).exception) &&
                api.Wire() == old(api.Wire())
      ensures Unseen(boxes).Some? && |Unseen(boxes).value| <= |jitters| &&
              WatchReport(nowMillis, Unseen(boxes).value, jitters).Success? ==>
                api.request.url == Api.API_V2_URL + watchRoute &&
                api.request.data == Api.WatchPayload(api.session.token, api.session.userId, api.session.uuid,
                                                     WatchReport(nowMillis, Unseen(boxes).value, jitters).value) &&
                (old(api.session.isLoggedIn) ==> r == Api.Done(Request.Verdict(x.response, x.twoFactor, x.challenge))) &&
                (!old(api.session.isLoggedIn) ==> r == Api.Throws("LoginException"))
    {
      var unseen := CollectUnseen(boxes);
      if unseen.None? {
        return Api.Throws("NullPointerException");
      }
      assert |unseen.value| <= ItemCount(boxes) by {
        UnseenSpec(boxes);
        SubseqShorter(unseen.value, AllItems(boxes));
      }
      totalActionPerformed := totalActionPerformed["stories_viewed" := totalActionPerformed["stories_viewed"] + |unseen.value|];
      r := api.WatchReels(nowMillis, unseen.value, jitters, watchRoute, x);
    }
  }

  /** A whole quota drive emits a subsequence of the ids. */
  lemma QuotaOrder(p: Policy, key: string, l: Ledger, ids: seq<string>, attempts: seq<Attempt>)
    requires Tracks(l) && key in p.max && key in l.totals && |attempts| >= |ids|
    ensures Subseq(QuotaDrive(p, key, l, ids, attempts, 0, []).out, ids)
  {
    assert Subseq([], ids[..0]);
    QuotaDriveOrder(p, key, l, ids, attempts, 0, []);
    var d := QuotaDrive(p, key, l, ids, attempts, 0, []);
    var front, rest := ids[..d.done], ids[d.done..];
    assert Subseq(d.out, front);
    SubseqGrow(d.out, front, rest);
    assert front + rest == ids;
  }
}
