/**
 * How a fleet of workers shares one table of posts: a claim is a mark with an age, every later statement
 * is guarded by that mark, and each SQL statement is one atomic step on the rows.
 */
module Claims {
  import opened Options
  import opened Arithmetic

  const CLAIM_TTL_MS: real := 300000.0
  const MAX_ATTEMPTS: nat := 5
  const FIRST_BACKOFF_MS: real := 30000.0
  const MAX_BACKOFF_MS: real := 900000.0

  datatype Status = New | Target | Rejected | Notified | Duplicate | Failed

  datatype Post = Post(
    status: Status,
    isTarget: Option<bool>,
    attempts: nat,
    nextRetryAt: real,
    claimedBy: Option<string>,
    claimedAt: Option<real>)

  type Posts = map<string, Post>

  /** What a worker reports about a post it holds. */
  datatype Outcome =
    | Evaluated(target: bool)
    | RejectedEarly
    | Sent
    | CopyOf
    | Deferred(ms: real)
    | StageFailed

  predicate Queued(s: Status) { s == New || s == Target }

  predicate Final(s: Status) { s == Rejected || s == Notified || s == Duplicate }

  function Freed(p: Post): Post { p.(claimedBy := None, claimedAt := None) }

  // ---- the claim query ----

  /** The claim is older than its lifetime, or there is none. */
  predicate Unclaimed(p: Post, now: real) {
    p.claimedAt.None? || p.claimedAt.value < now - CLAIM_TTL_MS
  }

  predicate Due(posts: Posts, status: Status, now: real, id: string) {
    id in posts && posts[id].status == status && posts[id].nextRetryAt <= now && Unclaimed(posts[id], now)
  }

  /** The due rows no other transaction has locked at that moment. */
  function Open(posts: Posts, status: Status, now: real, locked: set<string>): set<string> {
    set id | id in posts && Due(posts, status, now, id) && id !in locked
  }

  /** `chosen` is what ORDER BY next_retry_at LIMIT may pick of `open`: as many as fit, the longest due first. */
  ghost predicate Picked(posts: Posts, open: set<string>, limit: nat, chosen: set<string>) {
    && chosen <= open <= posts.Keys
    && |chosen| <= limit
    && (chosen == open || |chosen| == limit)
    && forall a, b :: a in chosen && b in open - chosen ==> posts[a].nextRetryAt <= posts[b].nextRetryAt
  }

  function Marked(posts: Posts, worker: string, now: real, chosen: set<string>): Posts {
    map id | id in posts ::
      if id in chosen then posts[id].(claimedBy := Some(worker), claimedAt := Some(now)) else posts[id]
  }

  // ---- the guarded updates ----

  predicate Holds(posts: Posts, worker: string, id: string) {
    id in posts && posts[id].claimedBy == Some(worker)
  }

  function Backoff(attempts: nat): real {
    var wait := FIRST_BACKOFF_MS * Pow2(attempts) as real;
    if wait < MAX_BACKOFF_MS then wait else MAX_BACKOFF_MS
  }

  function Row(p: Post, outcome: Outcome, now: real): Post {
    match outcome
    case Evaluated(target) =>
      Freed(p.(status := if target then Target else Rejected, isTarget := Some(target), attempts := 0))
    case RejectedEarly => Freed(p.(status := Rejected, isTarget := Some(false)))
    case Sent => Freed(p.(status := Notified, attempts := 0))
    case CopyOf => Freed(p.(status := Duplicate))
    case Deferred(ms) => Freed(p.(nextRetryAt := now + ms))
    case StageFailed =>
      Freed(p.(attempts := p.attempts + 1,
               status := if p.attempts + 1 >= MAX_ATTEMPTS then Failed else p.status,
               nextRetryAt := now + Backoff(p.attempts)))
  }

  function Settled(posts: Posts, worker: string, id: string, outcome: Outcome, now: real): Posts {
    if Holds(posts, worker, id) then posts[id := Row(posts[id], outcome, now)] else posts
  }

  function Requeued(posts: Posts, id: string, now: real): Posts {
    if id in posts then
      posts[id := Freed(posts[id].(status := if posts[id].isTarget == Some(true) then Target else New,
                                   attempts := 0,
                                   nextRetryAt := now))]
    else posts
  }

  function Dropped(posts: Posts, worker: string): Posts {
    map id | id in posts :: if posts[id].claimedBy == Some(worker) then Freed(posts[id]) else posts[id]
  }

  function Blank(now: real): Post { Post(New, None, 0, now, None, None) }

  function Inserted(posts: Posts, ids: set<string>, now: real): Posts {
    map id | id in posts.Keys + ids :: if id in posts then posts[id] else Blank(now)
  }

  // ---- a fleet of workers, step by step ----

  /** A worker has a post in hand, under the claim it made at `since`. */
  datatype Work = Work(worker: string, id: string, since: real)

  datatype Fleet = Fleet(posts: Posts, busy: set<Work>, now: real)

  datatype Step =
    | Insert(ids: seq<string>)
    | Claim(worker: string, status: Status, limit: nat, locked: set<string>, chosen: set<string>)
    | Settle(worker: string, id: string, outcome: Outcome)
    | Requeue(id: string)
    | ReleaseAll(worker: string)
    | Die(worker: string)
    | Wait(until: real)

  function Next(f: Fleet, s: Step): Fleet {
    match s
    case Insert(ids) => f.(posts := Inserted(f.posts, (set id | id in ids), f.now))
    case Claim(worker, _, _, _, chosen) =>
      f.(posts := Marked(f.posts, worker, f.now, chosen),
         busy := f.busy + set id | id in chosen :: Work(worker, id, f.now))
    case Settle(worker, id, outcome) =>
      f.(posts := Settled(f.posts, worker, id, outcome, f.now),
         busy := set w | w in f.busy && !(w.worker == worker && w.id == id))
    case Requeue(id) => f.(posts := Requeued(f.posts, id, f.now))
    case ReleaseAll(worker) =>
      f.(posts := Dropped(f.posts, worker), busy := set w | w in f.busy && w.worker != worker)
    case Die(worker) => f.(busy := set w | w in f.busy && w.worker != worker)
    case Wait(until) => f.(now := until)
  }

  /**
   * What the database allows: claims pick as the query does, for a stage that claims `new` or `target`, and
   * the clock does not run back. Any worker may call any statement on any post, whether it still holds it
   * or not.
   */
  ghost predicate Possible(f: Fleet, s: Step) {
    match s
    case Claim(_, status, limit, locked, chosen) =>
      Queued(status) && Picked(f.posts, Open(f.posts, status, f.now, locked), limit, chosen)
    case Wait(until) => f.now <= until
    case _ => true
  }

  /** The table and its statements; the database clock is read once per statement. */
  class PostTable {
    var posts: Posts

    constructor ()
      ensures posts == map[]
    {
      posts := map[];
    }

    /** INSERT ... ON CONFLICT DO NOTHING RETURNING: the ids this call was the first to record. */
    method InsertNewPosts(ids: seq<string>, now: real) returns (won: seq<string>)
      modifies this
      ensures posts == Inserted(old(posts), (set id | id in ids), now)
      ensures forall id :: id in won <==> id in ids && id !in old(posts)
      ensures forall i, j :: 0 <= i < j < |won| ==> won[i] != won[j]
    {
      won := [];
      for k := 0 to |ids|
        invariant posts == Inserted(old(posts), (set id | id in ids[..k]), now)
        invariant forall id :: id in won <==> id in ids[..k] && id !in old(posts)
        invariant forall i, j :: 0 <= i < j < |won| ==> won[i] != won[j]
      {
        assert ids[..k + 1] == ids[..k] + [ids[k]];
        if ids[k] !in posts {
          posts := posts[ids[k] := Blank(now)];
          won := won + [ids[k]];
        }
      }
      assert ids[..|ids|] == ids;
    }

    method ClaimPosts(worker: string, status: Status, limit: nat, locked: set<string>, now: real)
      returns (chosen: set<string>)
      modifies this
      ensures Picked(old(posts), Open(old(posts), status, now, locked), limit, chosen)
      ensures posts == Marked(old(posts), worker, now, chosen)
    {
      chosen := PickRows(posts, Open(posts, status, now, locked), limit);
      posts := map id | id in posts ::
        if id in chosen then posts[id].(claimedBy := Some(worker), claimedAt := Some(now)) else posts[id];
    }

    method RecordEvaluation(worker: string, id: string, target: bool, now: real)
      modifies this
      ensures posts == Settled(old(posts), worker, id, Evaluated(target), now)
    {
      if Holds(posts, worker, id) {
        posts := posts[id := posts[id].(status := if target then Target else Rejected, isTarget := Some(target),
                                        attempts := 0, claimedBy := None, claimedAt := None)];
      }
    }

    method RejectPost(worker: string, id: string, now: real)
      modifies this
      ensures posts == Settled(old(posts), worker, id, RejectedEarly, now)
    {
      if Holds(posts, worker, id) {
        posts := posts[id := posts[id].(status := Rejected, isTarget := Some(false),
                                        claimedBy := None, claimedAt := None)];
      }
    }

    method MarkNotified(worker: string, id: string, now: real)
      modifies this
      ensures posts == Settled(old(posts), worker, id, Sent, now)
    {
      if Holds(posts, worker, id) {
        posts := posts[id := posts[id].(status := Notified, attempts := 0, claimedBy := None, claimedAt := None)];
      }
    }

    method MarkDuplicate(worker: string, id: string, now: real)
      modifies this
      ensures posts == Settled(old(posts), worker, id, CopyOf, now)
    {
      if Holds(posts, worker, id) {
        posts := posts[id := posts[id].(status := Duplicate, claimedBy := None, claimedAt := None)];
      }
    }

    method DeferPost(worker: string, id: string, ms: real, now: real)
      modifies this
      ensures posts == Settled(old(posts), worker, id, Deferred(ms), now)
    {
      if Holds(posts, worker, id) {
        posts := posts[id := posts[id].(nextRetryAt := now + ms, claimedBy := None, claimedAt := None)];
      }
    }

    method ReleasePostFailure(worker: string, id: string, now: real)
      modifies this
      ensures posts == Settled(old(posts), worker, id, StageFailed, now)
    {
      if Holds(posts, worker, id) {
        var p := posts[id];
        posts := posts[id := p.(attempts := p.attempts + 1,
                                status := if p.attempts + 1 >= MAX_ATTEMPTS then Failed else p.status,
                                nextRetryAt := now + Backoff(p.attempts),
                                claimedBy := None, claimedAt := None)];
      }
    }

    method RequeuePost(id: string, now: real) returns (found: bool)
      modifies this
      ensures posts == Requeued(old(posts), id, now)
      ensures found == (id in old(posts))
    {
      found := id in posts;
      if found {
        posts := posts[id := posts[id].(status := if posts[id].isTarget == Some(true) then Target else New,
                                        attempts := 0, nextRetryAt := now, claimedBy := None, claimedAt := None)];
      }
    }

    method ReleaseAllClaims(worker: string)
      modifies this
      ensures posts == Dropped(old(posts), worker)
    {
      var todo := posts.Keys;
      while todo != {}
        invariant todo <= posts.Keys == old(posts).Keys
        invariant forall id :: id in posts ==>
                    posts[id] == if id in todo then old(posts)[id] else Dropped(old(posts), worker)[id]
      {
        var id :| id in todo;
        todo := todo - {id};
        if Holds(posts, worker, id) { posts := posts[id := posts[id].(claimedBy := None, claimedAt := None)]; }
      }
    }

    method Report(worker: string, id: string, outcome: Outcome, now: real)
      modifies this
      ensures posts == Settled(old(posts), worker, id, outcome, now)
    {
      match outcome
      case Evaluated(target) => RecordEvaluation(worker, id, target, now);
      case RejectedEarly => RejectPost(worker, id, now);
      case Sent => MarkNotified(worker, id, now);
      case CopyOf => MarkDuplicate(worker, id, now);
      case Deferred(ms) => DeferPost(worker, id, ms, now);
      case StageFailed => ReleasePostFailure(worker, id, now);
    }

    /** Any statement at all is a step the runs below allow, and leaves the table they go on from. */
    method Perform(s: Step, busy: set<Work>, now: real) returns (did: Step)
      requires s.Claim? ==> Queued(s.status)
      requires !s.Wait?
      modifies this
      ensures if s.Claim? then did.Claim? && did == s.(chosen := did.chosen) else did == s
      ensures var f := Fleet(old(posts), busy, now); Possible(f, did) && posts == Next(f, did).posts
    {
      did := s;
      match s
      case Insert(ids) => var won := InsertNewPosts(ids, now);
      case Claim(worker, status, limit, locked, _) =>
        var chosen := ClaimPosts(worker, status, limit, locked, now);
        did := Claim(worker, status, limit, locked, chosen);
      case Settle(worker, id, outcome) => Report(worker, id, outcome, now);
      case Requeue(id) => var found := RequeuePost(id, now);
      case ReleaseAll(worker) => ReleaseAllClaims(worker);
      case Die(_) =>
    }
  }

  /** The row due longest; ties go either way. */
  method Longest(posts: Posts, rest: set<string>) returns (best: string)
    requires rest <= posts.Keys && rest != {}
    ensures best in rest && forall b :: b in rest ==> posts[best].nextRetryAt <= posts[b].nextRetryAt
  {
    best :| best in rest;
    var todo := rest - {best};
    while todo != {}
      invariant todo <= rest && best in rest
      invariant forall b :: b in rest - todo ==> posts[best].nextRetryAt <= posts[b].nextRetryAt
    {
      var b :| b in todo;
      todo := todo - {b};
      if posts[b].nextRetryAt < posts[best].nextRetryAt { best := b; }
    }
  }

  method PickRows(posts: Posts, open: set<string>, limit: nat) returns (chosen: set<string>)
    requires open <= posts.Keys
    ensures Picked(posts, open, limit, chosen)
  {
    chosen := {};
    var rest := open;
    while rest != {} && |chosen| < limit
      invariant rest == open - chosen && chosen <= open && |chosen| <= limit
      invariant forall a, b :: a in chosen && b in rest ==> posts[a].nextRetryAt <= posts[b].nextRetryAt
      decreases |rest|
    {
      var best := Longest(posts, rest);
      chosen := chosen + {best};
      rest := rest - {best};
    }
  }

  // ---- runs ----

  /** A requeue is used as documented: on a failed post. */
  ghost predicate OnlyFailed(f: Fleet, s: Step) {
    s.Requeue? && s.id in f.posts ==> f.posts[s.id].status == Failed
  }

  /** Nobody is still at work when its claim runs out. */
  ghost predicate InTime(f: Fleet, s: Step) {
    s.Wait? ==> forall w :: w in f.busy ==> s.until <= w.since + CLAIM_TTL_MS
  }

  ghost function After(f: Fleet, run: seq<Step>): Fleet {
    if run == [] then f else Next(After(f, run[..|run| - 1]), run[|run| - 1])
  }

  ghost predicate PossibleRun(f: Fleet, run: seq<Step>) {
    run == [] || (PossibleRun(f, run[..|run| - 1]) && Possible(After(f, run[..|run| - 1]), run[|run| - 1]))
  }

  /** Only failed posts are requeued, all along the run. */
  ghost predicate RequeuesFailed(f: Fleet, run: seq<Step>) {
    run == [] || (RequeuesFailed(f, run[..|run| - 1]) && OnlyFailed(After(f, run[..|run| - 1]), run[|run| - 1]))
  }

  /** All holders are in time, all along the run. */
  ghost predicate HoldersInTime(f: Fleet, run: seq<Step>) {
    run == [] || (HoldersInTime(f, run[..|run| - 1]) && InTime(After(f, run[..|run| - 1]), run[|run| - 1]))
  }

  /** A queued post has attempts left, and only a queued post is claimed. */
  ghost predicate Orderly(posts: Posts) {
    forall id :: id in posts ==>
      && (Queued(posts[id].status) ==> posts[id].attempts < MAX_ATTEMPTS)
      && (posts[id].claimedBy.Some? <==> posts[id].claimedAt.Some?)
      && (posts[id].claimedBy.Some? ==> Queued(posts[id].status))
  }

  /** Whoever is at work on a post is the worker its row names, under a claim that still stands. */
  ghost predicate Backed(f: Fleet) {
    forall w :: w in f.busy ==>
      && w.id in f.posts
      && f.posts[w.id].claimedBy == Some(w.worker)
      && f.posts[w.id].claimedAt == Some(w.since)
      && f.now <= w.since + CLAIM_TTL_MS
  }

  ghost predicate Exclusive(f: Fleet) {
    forall v, w :: v in f.busy && w in f.busy && v.id == w.id ==> v.worker == w.worker
  }

  lemma StepKeepsOrderly(f: Fleet, s: Step)
    requires Orderly(f.posts) && Possible(f, s)
    ensures Orderly(Next(f, s).posts)
  {
    var after := Next(f, s).posts;
    if s.Claim? {
      assert forall id :: id in s.chosen ==> Due(f.posts, s.status, f.now, id);
    }
    forall id | id in after
      ensures Queued(after[id].status) ==> after[id].attempts < MAX_ATTEMPTS
      ensures after[id].claimedBy.Some? <==> after[id].claimedAt.Some?
      ensures after[id].claimedBy.Some? ==> Queued(after[id].status)
    {
      if s.Settle? && id in f.posts {
        assert after[id] == f.posts[id] || (id == s.id && after[id] == Row(f.posts[id], s.outcome, f.now));
      }
    }
  }

  lemma StepKeepsBacked(f: Fleet, s: Step)
    requires Orderly(f.posts) && Backed(f) && Possible(f, s) && OnlyFailed(f, s) && InTime(f, s)
    ensures Backed(Next(f, s))
  {
    var after := Next(f, s);
    if s.Claim? {
      assert forall id :: id in s.chosen ==> Due(f.posts, s.status, f.now, id);
    }
    forall w | w in after.busy
      ensures w.id in after.posts && after.posts[w.id].claimedBy == Some(w.worker)
      ensures after.posts[w.id].claimedAt == Some(w.since) && after.now <= w.since + CLAIM_TTL_MS
    {
      if s.Claim? && w !in f.busy {
        assert w == Work(s.worker, w.id, f.now) && w.id in s.chosen;
      } else {
        assert w in f.busy;
      }
    }
  }

  /** Whatever callers do, in every run a queued post has fewer than five attempts and only queued posts are claimed. */
  lemma {:induction false} RunsStayOrderly(f: Fleet, run: seq<Step>)
    requires Orderly(f.posts) && PossibleRun(f, run)
    ensures Orderly(After(f, run).posts)
  {
    if run != [] {
      RunsStayOrderly(f, run[..|run| - 1]);
      StepKeepsOrderly(After(f, run[..|run| - 1]), run[|run| - 1]);
    }
  }

  /** With holders in time and only failed posts requeued, no two workers ever have one post in hand. */
  lemma {:induction false} NeverTwoAtWork(start: real, run: seq<Step>)
    requires var f := Fleet(map[], {}, start); PossibleRun(f, run) && RequeuesFailed(f, run) && HoldersInTime(f, run)
    ensures var end := After(Fleet(map[], {}, start), run); Orderly(end.posts) && Backed(end) && Exclusive(end)
  {
    var f := Fleet(map[], {}, start);
    if run != [] {
      NeverTwoAtWork(start, run[..|run| - 1]);
      StepKeepsOrderly(After(f, run[..|run| - 1]), run[|run| - 1]);
      StepKeepsBacked(After(f, run[..|run| - 1]), run[|run| - 1]);
    }
  }

  /** A settled verdict, and a parked post, change only by a requeue of that very post. */
  lemma OnlyRequeueReopens(f: Fleet, s: Step, id: string)
    requires Orderly(f.posts) && Possible(f, s)
    requires id in f.posts && !Queued(f.posts[id].status)
    ensures id in Next(f, s).posts
    ensures Next(f, s).posts[id].status == f.posts[id].status <==> s != Requeue(id)
    ensures s != Requeue(id) ==> Next(f, s).posts[id] == f.posts[id]
  {
    if s.Claim? {
      assert forall x :: x in s.chosen ==> Due(f.posts, s.status, f.now, x);
    }
  }

  // ---- what is stored ----

  /** What each report leaves of the row it was about. */
  ghost predicate Stored(p: Post, outcome: Outcome, now: real, q: Post) {
    && q.claimedBy == None && q.claimedAt == None
    && match outcome
       case Evaluated(true) => q.status == Target && q.isTarget == Some(true) && q.attempts == 0 && q.nextRetryAt == p.nextRetryAt
       case Evaluated(false) => q.status == Rejected && q.isTarget == Some(false) && q.attempts == 0 && q.nextRetryAt == p.nextRetryAt
       case RejectedEarly =>
         q.status == Rejected && q.isTarget == Some(false) && q.attempts == p.attempts && q.nextRetryAt == p.nextRetryAt
       case Sent => q.status == Notified && q.isTarget == p.isTarget && q.attempts == 0 && q.nextRetryAt == p.nextRetryAt
       case CopyOf => q.status == Duplicate && q.isTarget == p.isTarget && q.attempts == p.attempts && q.nextRetryAt == p.nextRetryAt
       case Deferred(ms) => q.status == p.status && q.isTarget == p.isTarget && q.attempts == p.attempts && q.nextRetryAt == now + ms
       case StageFailed =>
         && q.status == (if p.attempts >= 4 then Failed else p.status)
         && q.isTarget == p.isTarget && q.attempts == p.attempts + 1
         && (p.attempts <= 4 ==> q.nextRetryAt == now + [30000.0, 60000.0, 120000.0, 240000.0, 480000.0][p.attempts])
         && (p.attempts > 4 ==> q.nextRetryAt == now + 900000.0)
  }

  /** Of every report, the one row of its holder's post is stored so, and nothing else changes. */
  lemma ReportStores(f: Fleet, worker: string, id: string, outcome: Outcome)
    ensures var before, after := f.posts, Next(f, Settle(worker, id, outcome)).posts;
            && after.Keys == before.Keys
            && forall x :: x in before ==>
                 if x == id && before[x].claimedBy == Some(worker) then Stored(before[x], outcome, f.now, after[x])
                 else after[x] == before[x]
  {
    if outcome.StageFailed? && id in f.posts { BackoffIs(f.posts[id].attempts); }
  }

  lemma BackoffIs(attempts: nat)
    ensures attempts <= 4 ==> Backoff(attempts) == [30000.0, 60000.0, 120000.0, 240000.0, 480000.0][attempts]
    ensures attempts > 4 ==> Backoff(attempts) == 900000.0
  {
    assert Pow2(0) == 1 && Pow2(1) == 2 && Pow2(2) == 4;
    assert Pow2(3) == 8 && Pow2(4) == 16;
    if attempts > 4 {
      Pow2Grows(5, attempts);
      assert Pow2(5) == 32;
    }
  }

  /** A row is open to a claim exactly when it waits for that stage, is due, and nobody holds it or for over five minutes. */
  lemma OpenExactly(posts: Posts, status: Status, now: real, locked: set<string>, id: string)
    ensures id in Open(posts, status, now, locked) <==>
            && id in posts && id !in locked && posts[id].status == status && posts[id].nextRetryAt <= now
            && (posts[id].claimedAt.Some? ==> now - posts[id].claimedAt.value > 300000.0)
  {
  }

  /**
   * A claim marks just the chosen rows and changes nothing else of them; a post seen for the first time waits for
   * evaluation, due at once; one that is requeued has its attempts back and keeps its verdict.
   */
  lemma OtherStepsStore(f: Fleet, s: Step, id: string)
    requires id in Next(f, s).posts
    ensures var q := Next(f, s).posts[id];
            && (s.Claim? && id in f.posts ==>
                  q == if id in s.chosen then f.posts[id].(claimedBy := Some(s.worker), claimedAt := Some(f.now)) else f.posts[id])
            && (s.Insert? ==> if id in f.posts then q == f.posts[id] else id in s.ids && q == Post(New, None, 0, f.now, None, None))
            && (s == Requeue(id) && id in f.posts ==>
                  q == Post(if f.posts[id].isTarget == Some(true) then Target else New, f.posts[id].isTarget, 0, f.now, None, None))
            && (s.ReleaseAll? && id in f.posts ==>
                  q == if f.posts[id].claimedBy == Some(s.worker) then f.posts[id].(claimedBy := None, claimedAt := None)
                       else f.posts[id])
  {
  }

  /** A verdict on the post is reported. */
  ghost predicate Judges(s: Step, id: string) { s.Settle? && s.id == id && (s.outcome.Evaluated? || s.outcome.RejectedEarly?) }

  lemma {:induction false} VerdictIsKept(f: Fleet, run: seq<Step>, id: string)
    requires id in f.posts && forall s :: s in run ==> !Judges(s, id)
    ensures id in After(f, run).posts && After(f, run).posts[id].isTarget == f.posts[id].isTarget
  {
    if run != [] {
      var front, last := run[..|run| - 1], run[|run| - 1];
      assert last in run && forall s :: s in front ==> s in run;
      VerdictIsKept(f, front, id);
      assert !Judges(last, id);
    }
  }

  /** Once evaluated, and until judged again, a post is requeued to the stage its verdict names, with all its attempts. */
  lemma RequeueFollowsVerdict(f: Fleet, worker: string, id: string, target: bool, run: seq<Step>)
    requires Holds(f.posts, worker, id) && forall s :: s in run ==> !Judges(s, id)
    ensures var end := After(Next(f, Settle(worker, id, Evaluated(target))), run);
            && id in end.posts
            && Next(end, Requeue(id)).posts[id] == Post(if target then Target else New, Some(target), 0, end.now, None, None)
  {
    VerdictIsKept(Next(f, Settle(worker, id, Evaluated(target))), run, id);
  }

  // ---- what a report means ----

  ghost predicate Touches(s: Step, id: string) { (s.Claim? && id in s.chosen) || s == Requeue(id) }

  /** Whoever reports and whatever it says, a row nobody holds changes only when it is claimed or requeued. */
  lemma {:induction false} FreeRowsStay(f: Fleet, run: seq<Step>, id: string)
    requires id in f.posts && f.posts[id].claimedBy == None
    requires forall s :: s in run ==> !Touches(s, id)
    ensures id in After(f, run).posts && After(f, run).posts[id] == f.posts[id]
  {
    if run != [] {
      var front, last := run[..|run| - 1], run[|run| - 1];
      assert last in run && forall s :: s in front ==> s in run;
      FreeRowsStay(f, front, id);
      assert !Touches(last, id);
    }
  }

  /** The holder itself reports on the row or drops all its claims. */
  ghost predicate ByHolder(s: Step, worker: string, id: string) {
    (s.Settle? && s.worker == worker && s.id == id) || s == ReleaseAll(worker)
  }

  /** While a claim stands, only its holder changes the row, a requeue aside. */
  lemma {:induction false} ClaimedRowStays(f: Fleet, run: seq<Step>, worker: string, id: string, since: real)
    requires PossibleRun(f, run) && id in f.posts
    requires f.posts[id].claimedBy == Some(worker) && f.posts[id].claimedAt == Some(since)
    requires After(f, run).now <= since + CLAIM_TTL_MS
    requires forall s :: s in run ==> s != Requeue(id) && !ByHolder(s, worker, id)
    ensures id in After(f, run).posts && After(f, run).posts[id] == f.posts[id]
  {
    if run != [] {
      var front, last := run[..|run| - 1], run[|run| - 1];
      assert last in run && forall s :: s in front ==> s in run;
      ClaimedRowStays(f, front, worker, id, since);
      var before := After(f, front);
      assert !ByHolder(last, worker, id);
      if last.Claim? { assert forall x :: x in last.chosen ==> Due(before.posts, last.status, before.now, x); }
    }
  }

  /** When, after a report, the post may next be claimed for a stage. */
  ghost predicate ComesBack(p: Post, outcome: Outcome, now: real, status: Status, t: real) {
    match outcome
    case Evaluated(target) => target && status == Target && p.nextRetryAt <= t
    case RejectedEarly => false
    case Sent => false
    case CopyOf => false
    case Deferred(ms) => status == p.status && now + ms <= t
    case StageFailed => status == p.status && p.attempts < 4 && now + 30000.0 * Pow2(p.attempts) as real <= t
  }

  /**
   * A report by the holder changes that post alone and frees it; from then on it is due for a stage exactly
   * when its outcome brings it back. Anybody else's report does nothing.
   */
  lemma ReportDecides(posts: Posts, worker: string, id: string, outcome: Outcome, now: real, status: Status, t: real)
    requires Orderly(posts) && Queued(status)
    ensures var after := Settled(posts, worker, id, outcome, now);
            if !Holds(posts, worker, id) then after == posts
            else
              && after.Keys == posts.Keys && after[id].claimedBy == None
              && (forall other :: other in posts && other != id ==> after[other] == posts[other])
              && (Due(after, status, t, id) <==> ComesBack(posts[id], outcome, now, status, t))
  {
    if Holds(posts, worker, id) && outcome.StageFailed? { CeilingIsNeverReached(posts, worker, id, now); }
  }

  /** Requeued, a post is due at once for the stage its verdict names, and no report of its former holder reaches it. */
  lemma RequeuedIsDue(posts: Posts, id: string, now: real, status: Status, worker: string, outcome: Outcome, t: real)
    requires id in posts && Queued(status) && now <= t
    ensures var after := Requeued(posts, id, now);
            && after.Keys == posts.Keys && (forall other :: other in posts && other != id ==> after[other] == posts[other])
            && (Due(after, status, t, id) <==> status == if posts[id].isTarget == Some(true) then Target else New)
            && Settled(after, worker, id, outcome, t) == after
  {
  }

  /** Used as documented, `rejected`, `notified` and `duplicate` are final: the row never changes again. */
  lemma {:induction false} VerdictsAreFinal(f: Fleet, run: seq<Step>, id: string)
    requires Orderly(f.posts) && PossibleRun(f, run) && RequeuesFailed(f, run)
    requires id in f.posts && Final(f.posts[id].status)
    ensures id in After(f, run).posts && After(f, run).posts[id] == f.posts[id]
  {
    if run != [] {
      var before := After(f, run[..|run| - 1]);
      VerdictsAreFinal(f, run[..|run| - 1], id);
      RunsStayOrderly(f, run[..|run| - 1]);
      OnlyRequeueReopens(before, run[|run| - 1], id);
    }
  }

  /** The statement itself does not look at the status: requeued, a post already alerted is alerted again. */
  lemma RequeueRevivesNotified()
    ensures var posts := map["p" := Post(Notified, Some(true), 0, 0.0, None, None)];
            Orderly(posts) && Due(Requeued(posts, "p", 1.0), Target, 1.0, "p")
  {
  }

  /** And requeued while held, it is handed to a second worker. */
  lemma RequeueBreaksExclusion()
    ensures var held := Fleet(map["p" := Post(Target, Some(true), 0, 0.0, Some("a"), Some(0.0))], {Work("a", "p", 0.0)}, 0.0);
            var claim := Claim("b", Target, 1, {}, {"p"});
            && Orderly(held.posts) && Backed(held)
            && Possible(Next(held, Requeue("p")), claim)
            && !Exclusive(Next(Next(held, Requeue("p")), claim))
  {
    var held := Fleet(map["p" := Post(Target, Some(true), 0, 0.0, Some("a"), Some(0.0))], {Work("a", "p", 0.0)}, 0.0);
    var claim := Claim("b", Target, 1, {}, {"p"});
    var freed := Next(held, Requeue("p"));
    assert Open(freed.posts, Target, 0.0, {}) == {"p"};
    var end := Next(freed, claim);
    assert "p" in claim.chosen;
    assert Work("a", "p", 0.0) in end.busy && Work("b", "p", 0.0) in end.busy;
  }

  /** A holder that outlives its claim may find a second worker beside it. */
  lemma OverrunBreaksExclusion()
    ensures var held := Fleet(map["p" := Post(New, None, 0, 0.0, Some("a"), Some(0.0))], {Work("a", "p", 0.0)}, 0.0);
            var claim := Claim("b", New, 1, {}, {"p"});
            && Orderly(held.posts) && Backed(held)
            && Possible(Next(held, Wait(300001.0)), claim)
            && !Exclusive(Next(Next(held, Wait(300001.0)), claim))
  {
    var held := Fleet(map["p" := Post(New, None, 0, 0.0, Some("a"), Some(0.0))], {Work("a", "p", 0.0)}, 0.0);
    var claim := Claim("b", New, 1, {}, {"p"});
    var late := Next(held, Wait(300001.0));
    assert Open(late.posts, New, 300001.0, {}) == {"p"};
    var end := Next(late, claim);
    assert "p" in claim.chosen;
    assert Work("a", "p", 0.0) in end.busy && Work("b", "p", 300001.0) in end.busy;
  }

  /**
   * In an orderly table each failure doubles the wait exactly: the last one before the post is parked is
   * eight minutes, so the fifteen-minute ceiling never takes effect.
   */
  lemma CeilingIsNeverReached(posts: Posts, worker: string, id: string, now: real)
    requires Orderly(posts) && Holds(posts, worker, id)
    ensures var after := Settled(posts, worker, id, StageFailed, now)[id];
            && after.nextRetryAt == now + FIRST_BACKOFF_MS * Pow2(posts[id].attempts) as real
            && after.nextRetryAt <= now + 480000.0
            && (after.status == Failed <==> posts[id].attempts == MAX_ATTEMPTS - 1)
            && (after.status == Failed || after.status == posts[id].status)
  {
    Pow2Grows(posts[id].attempts, 4);
    assert Pow2(4) == 16 by { assert Pow2(2) == 4; }
  }
}
