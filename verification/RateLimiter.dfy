/** The login rate limiter of app/main.py: failures per address and per identifier within a
    sliding window, for attempts that come one after another. */
module RateLimiter {

  const IP_LIMIT := 10
  const USER_LIMIT := 5
  const WINDOW := 900.0

  /** Failure times by key, in the order of recording. */
  type Failures = map<string, seq<real>>

  function Of(store: Failures, key: string): seq<real> { if key in store then store[key] else [] }

  /** `[t for t in ... if t > cutoff]`. */
  function Live(s: seq<real>, cutoff: real): seq<real>
  {
    if s == [] then [] else (if s[0] > cutoff then [s[0]] else []) + Live(s[1..], cutoff)
  }

  function Min(s: seq<real>): (m: real)
    requires s != []
    ensures m in s && forall t :: t in s ==> m <= t
  {
    if |s| == 1 then s[0]
    else
      var m := Min(s[1..]);
      assert s == [s[0]] + s[1..];
      if s[0] <= m then s[0] else m
  }

  /** Python's `int()` on a number: towards zero. */
  function Truncate(x: real): int { if x >= 0.0 then x.Floor else -((-x).Floor) }

  /** `max(int(min(valid) + window - now) + 1, 1)`. */
  function RetryAfter(valid: seq<real>, now: real): int
    requires valid != []
  {
    var wait := Truncate(Min(valid) + WINDOW - now) + 1;
    if wait >= 1 then wait else 1
  }

  predicate Exceeds(s: seq<real>, limit: nat, now: real) { |Live(s, now - WINDOW)| >= limit }

  // ---------------------------------------------------------------- the handler

  datatype Verdict = UnknownUser | NextcloudDown | WrongPassword | NotOnTheList | Accepted

  /** A login request, with the clock readings of its two checks and of its last step. */
  datatype Attempt = Attempt(ip: string, user: string, complete: bool, ipAt: real, userAt: real, doneAt: real,
                             verdict: Verdict)

  datatype Response = BadRequest | TooMany(retry: int) | Denied | Unavailable | Welcome

  /** One of the two module dictionaries. */
  class AttemptStore {
    var failures: Failures

    constructor ()
      ensures failures == map[]
    {
      failures := map[];
    }

    /** `_rate_limit_check`, which prunes as it reads. */
    method Check(key: string, limit: nat, now: real) returns (exceeded: bool, retry: int)
      requires limit > 0
      modifies this
      ensures failures == old(failures)[key := Live(Of(old(failures), key), now - WINDOW)]
      ensures exceeded <==> Exceeds(Of(old(failures), key), limit, now)
      ensures exceeded ==> retry == RetryAfter(Live(Of(old(failures), key), now - WINDOW), now)
    {
      var valid := Live(Of(failures, key), now - WINDOW);
      failures := failures[key := valid];
      if |valid| >= limit { return true, RetryAfter(valid, now); }
      return false, 0;
    }

    /** One half of `_rate_limit_record`. */
    method Record(key: string, now: real)
      modifies this
      ensures failures == old(failures)[key := Of(old(failures), key) + [now]]
    {
      failures := failures[key := Of(failures, key) + [now]];
    }

    /** One half of `_rate_limit_clear`. */
    method Clear(key: string)
      modifies this
      ensures failures == old(failures) - {key}
    {
      failures := failures - {key};
    }
  }

  datatype Tables = Tables(ips: Failures, users: Failures)

  /** What an admitted attempt leaves behind. */
  function Conclude(t: Tables, a: Attempt): (Tables, Response)
  {
    match a.verdict
    case NextcloudDown => (t, Unavailable)
    case Accepted => (Tables(t.ips - {a.ip}, t.users - {a.user}), Welcome)
    case _ => (Tables(t.ips[a.ip := Of(t.ips, a.ip) + [a.doneAt]],
                      t.users[a.user := Of(t.users, a.user) + [a.doneAt]]), Denied)
  }

  /** A login as a whole; `prune` is false for the limiter that never forgets. */
  function Step(t: Tables, a: Attempt, prune: bool): (Tables, Response)
  {
    if !a.complete then (t, BadRequest)
    else
      var byIp := Live(Of(t.ips, a.ip), a.ipAt - WINDOW);
      var t1 := if prune then t.(ips := t.ips[a.ip := byIp]) else t;
      if |byIp| >= IP_LIMIT then (t1, TooMany(RetryAfter(byIp, a.ipAt)))
      else
        var byUser := Live(Of(t1.users, a.user), a.userAt - WINDOW);
        var t2 := if prune then t1.(users := t1.users[a.user := byUser]) else t1;
        if |byUser| >= USER_LIMIT then (t2, TooMany(RetryAfter(byUser, a.userAt))) else Conclude(t2, a)
  }

  /** `login`, as far as the limiter goes. */
  method Login(ips: AttemptStore, users: AttemptStore, a: Attempt) returns (r: Response)
    requires ips != users
    modifies ips, users
    ensures (Tables(ips.failures, users.failures), r) == Step(Tables(old(ips.failures), old(users.failures)), a, true)
  {
    hide Live, RetryAfter;
    if !a.complete { return BadRequest; }
    var exceeded, retry := ips.Check(a.ip, IP_LIMIT, a.ipAt);
    if exceeded { return TooMany(retry); }
    exceeded, retry := users.Check(a.user, USER_LIMIT, a.userAt);
    if exceeded { return TooMany(retry); }
    match a.verdict {
      case NextcloudDown => return Unavailable;
      case Accepted =>
        ips.Clear(a.ip);
        users.Clear(a.user);
        return Welcome;
      case _ =>
        ips.Record(a.ip, a.doneAt);
        users.Record(a.user, a.doneAt);
        return Denied;
    }
  }

  // ---------------------------------------------------------------- one list of failures

  predicate Sorted(s: seq<real>) { forall i, j :: 0 <= i < j < |s| ==> s[i] <= s[j] }

  /** More than `limit` failures in a row take at least a whole window. */
  predicate Spaced(s: seq<real>, limit: nat) { forall i, j :: 0 <= i && j == i + limit < |s| ==> s[j] - s[i] >= WINDOW }

  predicate UpTo(s: seq<real>, now: real) { forall i :: 0 <= i < |s| ==> s[i] <= now }

  /** On a list in order of time, the live part is a tail. */
  lemma {:induction false} LiveIsTail(s: seq<real>, cutoff: real) returns (k: nat)
    requires Sorted(s)
    ensures k <= |s| && Live(s, cutoff) == s[k..]
    ensures forall i :: 0 <= i < |s| ==> (s[i] > cutoff <==> i >= k)
  {
    if s == [] {
      k := 0;
    } else {
      var rest := s[1..];
      k := LiveIsTail(rest, cutoff);
      assert forall i :: 0 <= i < |rest| ==> rest[i] == s[i + 1];
      if s[0] > cutoff {
        assert rest != [] ==> rest[0] > cutoff;
        assert s == [s[0]] + rest;
        k := 0;
      } else {
        assert rest[k..] == s[k + 1..] && [] + Live(rest, cutoff) == Live(rest, cutoff);
        k := k + 1;
      }
    }
  }

  /** Pruning at a time changes no later view. */
  lemma {:induction false} LiveOfLive(s: seq<real>, early: real, late: real)
    requires early <= late
    ensures Live(Live(s, early), late) == Live(s, late)
  {
    if s != [] {
      LiveOfLive(s[1..], early, late);
      var rest, l := Live(s[1..], early), Live(s, early);
      if s[0] > early {
        assert l == [s[0]] + rest && l[1..] == rest;
      } else {
        assert l == [] + rest == rest;
        assert Live(s, late) == [] + Live(s[1..], late) == Live(s[1..], late);
      }
    }
  }

  lemma {:induction false} LiveOfSnoc(s: seq<real>, t: real, cutoff: real)
    ensures Live(s + [t], cutoff) == Live(s, cutoff) + (if t > cutoff then [t] else [])
  {
    if s == [] {
      assert s + [t] == [t] && [t][1..] == [];
    } else {
      assert (s + [t])[1..] == s[1..] + [t];
      LiveOfSnoc(s[1..], t, cutoff);
    }
  }

  /** A failure recorded after a check that passed keeps the spacing. */
  lemma RecordKeepsSpacing(s: seq<real>, limit: nat, checked: real, now: real)
    requires Sorted(s) && Spaced(s, limit) && UpTo(s, checked) && checked <= now && !Exceeds(s, limit, checked)
    ensures Sorted(s + [now]) && Spaced(s + [now], limit) && UpTo(s + [now], now)
  {
    var k := LiveIsTail(s, checked - WINDOW);
    var s' := s + [now];
    if |s| >= limit {
      assert s'[|s| - limit] <= checked - WINDOW;
    }
  }

  /** How many of the times lie in the half-open window after `start`. */
  function InWindow(s: seq<real>, start: real): nat
  {
    if s == [] then 0 else (if start < s[|s| - 1] <= start + WINDOW then 1 else 0) + InWindow(s[..|s| - 1], start)
  }

  lemma {:induction false} WindowCount(s: seq<real>, start: real)
    requires Sorted(s)
    ensures s != [] && s[|s| - 1] <= start + WINDOW ==> InWindow(s, start) == |Live(s, start)|
  {
    if s != [] {
      var n := |s| - 1;
      assert s[..n] + [s[n]] == s;
      LiveOfSnoc(s[..n], s[n], start);
      WindowCount(s[..n], start);
    }
  }

  /** No half-open window, wherever it starts, holds more than `limit` of the failures. */
  lemma {:induction false} NoWindowOverflows(s: seq<real>, limit: nat, start: real)
    requires Sorted(s) && Spaced(s, limit)
    ensures InWindow(s, start) <= limit
  {
    if s != [] {
      var n := |s| - 1;
      if s[n] <= start + WINDOW {
        WindowCount(s, start);
        var k := LiveIsTail(s, start);
        assert n >= limit ==> s[n] - s[n - limit] >= WINDOW;
      } else {
        NoWindowOverflows(s[..n], limit, start);
      }
    }
  }

  /** At a refusal exactly `limit` failures are live, the oldest first. */
  lemma LiveAtRefusal(s: seq<real>, limit: nat, now: real)
    requires limit > 0 && Sorted(s) && Spaced(s, limit) && UpTo(s, now) && Exceeds(s, limit, now)
    ensures var live := Live(s, now - WINDOW);
            && |live| == limit <= |s| && live == s[|s| - limit..] && Min(live) == s[|s| - limit] > now - WINDOW
  {
    var k := LiveIsTail(s, now - WINDOW);
    var live := Live(s, now - WINDOW);
    assert s[k] > now - WINDOW && s[|s| - 1] <= now;
    assert |s| > limit ==> s[|s| - 1] - s[|s| - 1 - limit] >= WINDOW;
    assert live[0] == s[k];
    MinOfSorted(live);
  }

  /** Later checks on the same list are refused until its entry `limit` from the end is a
      window old. */
  lemma ExceedsUntil(s: seq<real>, limit: nat, later: real)
    requires 0 < limit <= |s| && Sorted(s)
    ensures Exceeds(s, limit, later) <==> later < s[|s| - limit] + WINDOW
  {
    var m := LiveIsTail(s, later - WINDOW);
    assert s[|s| - limit] > later - WINDOW <==> |s| - limit >= m;
  }

  /** The Retry-After of a refusal: until the oldest live failure is a window old every
      check is refused, from then on the next one passes; waiting the given number of
      seconds is enough, and too much by at most one. */
  lemma RetryAfterIsRight(s: seq<real>, limit: nat, now: real)
    requires limit > 0 && Sorted(s) && Spaced(s, limit) && UpTo(s, now) && Exceeds(s, limit, now)
    ensures var live := Live(s, now - WINDOW);
            && live != []
            && (forall later :: later >= now ==> (Exceeds(s, limit, later) <==> later < Min(live) + WINDOW))
            && Min(live) + WINDOW < now + RetryAfter(live, now) as real <= Min(live) + WINDOW + 1.0
            && !Exceeds(s, limit, now + RetryAfter(live, now) as real)
  {
    hide Exceeds, Live, Min, Truncate, Sorted, Spaced, UpTo;
    LiveAtRefusal(s, limit, now);
    var live := Live(s, now - WINDOW);
    forall later | later >= now ensures Exceeds(s, limit, later) <==> later < Min(live) + WINDOW {
      ExceedsUntil(s, limit, later);
    }
    WaitIsEnough(Min(live) + WINDOW - now);
    ExceedsUntil(s, limit, now + RetryAfter(live, now) as real);
  }

  lemma MinOfSorted(s: seq<real>)
    requires s != [] && Sorted(s)
    ensures Min(s) == s[0]
  {
    var i :| 0 <= i < |s| && s[i] == Min(s);
  }

  lemma WaitIsEnough(x: real)
    requires x > 0.0
    ensures x < (Truncate(x) + 1) as real <= x + 1.0 && Truncate(x) + 1 >= 1
  {
  }

  // ---------------------------------------------------------------- every sequence of attempts

  function Run(attempts: seq<Attempt>, prune: bool): (Tables, seq<Response>)
  {
    if attempts == [] then (Tables(map[], map[]), [])
    else
      var n := |attempts| - 1;
      var (t, rs) := Run(attempts[..n], prune);
      var (t', r) := Step(t, attempts[n], prune);
      (t', rs + [r])
  }

  /** The clock never goes back, within an attempt or from one to the next. */
  predicate InOrder(attempts: seq<Attempt>)
  {
    && (forall i :: 0 <= i < |attempts| ==> attempts[i].ipAt <= attempts[i].userAt <= attempts[i].doneAt)
    && (forall i :: 0 < i < |attempts| ==> attempts[i - 1].doneAt <= attempts[i].ipAt)
  }

  /** Two lists that give the same answers from `now` on. */
  predicate SameView(p: seq<real>, f: seq<real>, now: real) { Live(p, now - WINDOW) == Live(f, now - WINDOW) }

  predicate Limited(f: seq<real>, limit: nat, now: real) { Sorted(f) && Spaced(f, limit) && UpTo(f, now) }

  ghost predicate Alike(p: Failures, f: Failures, now: real) { forall key :: SameView(Of(p, key), Of(f, key), now) }

  ghost predicate Good(f: Failures, limit: nat, now: real) { forall key :: Limited(Of(f, key), limit, now) }

  lemma SameViewLater(p: seq<real>, f: seq<real>, limit: nat, clock: real, now: real)
    requires SameView(p, f, clock) && Limited(f, limit, clock) && clock <= now
    ensures SameView(p, f, now) && Limited(f, limit, now)
    ensures SameView(Live(p, clock - WINDOW), f, now)
  {
    hide Sorted, Spaced, Live;
    LiveOfLive(p, clock - WINDOW, now - WINDOW);
    LiveOfLive(f, clock - WINDOW, now - WINDOW);
  }

  lemma Later(p: Failures, f: Failures, limit: nat, clock: real, now: real)
    requires Alike(p, f, clock) && Good(f, limit, clock) && clock <= now
    ensures Alike(p, f, now) && Good(f, limit, now)
  {
    hide SameView, Limited;
    forall k ensures SameView(Of(p, k), Of(f, k), now) && Limited(Of(f, k), limit, now) {
      SameViewLater(Of(p, k), Of(f, k), limit, clock, now);
    }
  }

  /** A check, whatever follows it. */
  lemma CheckAlike(p: Failures, f: Failures, limit: nat, key: string, now: real, done: real)
    requires Alike(p, f, now) && Good(f, limit, now) && now <= done
    ensures Live(Of(p, key), now - WINDOW) == Live(Of(f, key), now - WINDOW)
    ensures Alike(p[key := Live(Of(p, key), now - WINDOW)], f, done) && Good(f, limit, done)
  {
    hide Limited, Live;
    assert SameView(Of(p, key), Of(f, key), now);
    forall k ensures SameView(Of(p[key := Live(Of(p, key), now - WINDOW)], k), Of(f, k), done)
           && Limited(Of(f, k), limit, done) {
      SameViewLater(Of(p, k), Of(f, k), limit, now, done);
    }
  }

  lemma ClearAlike(p: Failures, f: Failures, limit: nat, key: string, done: real)
    requires Alike(p, f, done) && Good(f, limit, done)
    ensures Alike(p - {key}, f - {key}, done) && Good(f - {key}, limit, done)
  {
    hide Live;
    forall k ensures SameView(Of(p - {key}, k), Of(f - {key}, k), done) && Limited(Of(f - {key}, k), limit, done) {
      assert k != key ==> Of(p - {key}, k) == Of(p, k) && Of(f - {key}, k) == Of(f, k);
      assert SameView(Of(p, k), Of(f, k), done) && Limited(Of(f, k), limit, done);
    }
  }

  /** A failure recorded after a check that passed. */
  lemma RecordAlike(p: Failures, f: Failures, limit: nat, key: string, now: real, done: real)
    requires Alike(p, f, done) && Good(f, limit, now) && now <= done && !Exceeds(Of(f, key), limit, now)
    ensures Alike(p[key := Of(p, key) + [done]], f[key := Of(f, key) + [done]], done)
    ensures Good(f[key := Of(f, key) + [done]], limit, done)
  {
    hide Live, Exceeds, Spaced, Sorted;
    LiveOfSnoc(Of(p, key), done, done - WINDOW);
    LiveOfSnoc(Of(f, key), done, done - WINDOW);
    assert SameView(Of(p, key), Of(f, key), done) && Limited(Of(f, key), limit, now);
    RecordKeepsSpacing(Of(f, key), limit, now, done);
    var p', f' := p[key := Of(p, key) + [done]], f[key := Of(f, key) + [done]];
    forall k ensures SameView(Of(p', k), Of(f', k), done) && Limited(Of(f', k), limit, done) {
      assert SameView(Of(p, k), Of(f, k), done) && Limited(Of(f, k), limit, now);
    }
  }

  lemma StepsAlike(p: Tables, f: Tables, a: Attempt, clock: real)
    requires Alike(p.ips, f.ips, clock) && Good(f.ips, IP_LIMIT, clock)
    requires Alike(p.users, f.users, clock) && Good(f.users, USER_LIMIT, clock)
    requires clock <= a.ipAt <= a.userAt <= a.doneAt
    ensures Step(p, a, true).1 == Step(f, a, false).1
    ensures var p', f' := Step(p, a, true).0, Step(f, a, false).0;
            && Alike(p'.ips, f'.ips, a.doneAt) && Good(f'.ips, IP_LIMIT, a.doneAt)
            && Alike(p'.users, f'.users, a.doneAt) && Good(f'.users, USER_LIMIT, a.doneAt)
  {
    hide Live, RetryAfter, Alike, Good;
    Later(p.ips, f.ips, IP_LIMIT, clock, a.ipAt);
    Later(p.ips, f.ips, IP_LIMIT, a.ipAt, a.doneAt);
    Later(p.users, f.users, USER_LIMIT, clock, a.userAt);
    Later(p.users, f.users, USER_LIMIT, a.userAt, a.doneAt);
    CheckAlike(p.ips, f.ips, IP_LIMIT, a.ip, a.ipAt, a.doneAt);
    CheckAlike(p.users, f.users, USER_LIMIT, a.user, a.userAt, a.doneAt);
    var byIp, byUser := Live(Of(f.ips, a.ip), a.ipAt - WINDOW), Live(Of(f.users, a.user), a.userAt - WINDOW);
    if a.complete && |byIp| < IP_LIMIT && |byUser| < USER_LIMIT {
      var ips, users := p.ips[a.ip := byIp], p.users[a.user := byUser];
      ClearAlike(ips, f.ips, IP_LIMIT, a.ip, a.doneAt);
      ClearAlike(users, f.users, USER_LIMIT, a.user, a.doneAt);
      RecordAlike(ips, f.ips, IP_LIMIT, a.ip, a.ipAt, a.doneAt);
      RecordAlike(users, f.users, USER_LIMIT, a.user, a.userAt, a.doneAt);
    }
  }

  /** For every sequence of attempts: the limiter that prunes on read answers exactly as
      one that keeps every failure since the last success; and in the latter's lists, for
      every address and identifier, no window holds more than the limit. */
  lemma {:induction false} PruningIsInvisible(attempts: seq<Attempt>, clock: real)
    requires InOrder(attempts) && (attempts != [] ==> attempts[|attempts| - 1].doneAt <= clock)
    ensures Run(attempts, true).1 == Run(attempts, false).1
    ensures var p, f := Run(attempts, true).0, Run(attempts, false).0;
            && Alike(p.ips, f.ips, clock) && Good(f.ips, IP_LIMIT, clock)
            && Alike(p.users, f.users, clock) && Good(f.users, USER_LIMIT, clock)
  {
    hide Step, Live;
    if attempts == [] {
    } else {
      var n := |attempts| - 1;
      var a := attempts[n];
      PruningIsInvisible(attempts[..n], a.ipAt);
      var p, f := Run(attempts[..n], true).0, Run(attempts[..n], false).0;
      StepsAlike(p, f, a, a.ipAt);
      Later(Step(p, a, true).0.ips, Step(f, a, false).0.ips, IP_LIMIT, a.doneAt, clock);
      Later(Step(p, a, true).0.users, Step(f, a, false).0.users, USER_LIMIT, a.doneAt, clock);
    }
  }

  lemma FailuresAreLimited(attempts: seq<Attempt>, key: string, start: real)
    requires InOrder(attempts)
    ensures InWindow(Of(Run(attempts, false).0.ips, key), start) <= IP_LIMIT
    ensures InWindow(Of(Run(attempts, false).0.users, key), start) <= USER_LIMIT
  {
    hide Spaced, Sorted, Alike;
    PruningIsInvisible(attempts, if attempts == [] then 0.0 else attempts[|attempts| - 1].doneAt);
    NoWindowOverflows(Of(Run(attempts, false).0.ips, key), IP_LIMIT, start);
    NoWindowOverflows(Of(Run(attempts, false).0.users, key), USER_LIMIT, start);
  }

  // ---------------------------------------------------------------- Retry-After in a run

  lemma {:induction false} RunOfConcat(a: seq<Attempt>, m: Attempt, prune: bool)
    ensures Run(a + [m], prune).0 == Step(Run(a, prune).0, m, prune).0
    ensures Run(a + [m], prune).1 == Run(a, prune).1 + [Step(Run(a, prune).0, m, prune).1]
  {
    hide Step;
    assert (a + [m])[..|a|] == a;
  }

  lemma StepLeavesAlone(t: Tables, m: Attempt, key: string)
    ensures m.ip != key ==> Of(Step(t, m, false).0.ips, key) == Of(t.ips, key)
    ensures m.user != key ==> Of(Step(t, m, false).0.users, key) == Of(t.users, key)
  {
    hide Live, RetryAfter;
  }

  /** Attempts by other addresses do not touch an address's list. */
  lemma {:induction false} OtherAddresses(before: seq<Attempt>, others: seq<Attempt>, key: string)
    requires forall i :: 0 <= i < |others| ==> others[i].ip != key
    ensures Of(Run(before + others, false).0.ips, key) == Of(Run(before, false).0.ips, key)
  {
    hide Step, Run, Of;
    if others == [] {
      assert before + others == before;
    } else {
      var n := |others| - 1;
      OtherAddresses(before, others[..n], key);
      assert before + others == (before + others[..n]) + [others[n]];
      RunOfConcat(before + others[..n], others[n], false);
      StepLeavesAlone(Run(before + others[..n], false).0, others[n], key);
    }
  }

  /** ... nor those under other identifiers an identifier's. */
  lemma {:induction false} OtherUsers(before: seq<Attempt>, others: seq<Attempt>, key: string)
    requires forall i :: 0 <= i < |others| ==> others[i].user != key
    ensures Of(Run(before + others, false).0.users, key) == Of(Run(before, false).0.users, key)
  {
    hide Step, Run, Of;
    if others == [] {
      assert before + others == before;
    } else {
      var n := |others| - 1;
      OtherUsers(before, others[..n], key);
      assert before + others == (before + others[..n]) + [others[n]];
      RunOfConcat(before + others[..n], others[n], false);
      StepLeavesAlone(Run(before + others[..n], false).0, others[n], key);
    }
  }

  /** One list of a run, seen pruned and unpruned. */
  lemma OneList(attempts: seq<Attempt>, key: string, now: real)
    requires InOrder(attempts) && (attempts != [] ==> attempts[|attempts| - 1].doneAt <= now)
    ensures var p, f := Run(attempts, true).0, Run(attempts, false).0;
            && SameView(Of(p.ips, key), Of(f.ips, key), now) && Limited(Of(f.ips, key), IP_LIMIT, now)
            && SameView(Of(p.users, key), Of(f.users, key), now) && Limited(Of(f.users, key), USER_LIMIT, now)
  {
    hide SameView, Limited;
    PruningIsInvisible(attempts, now);
  }

  /** The next check of a refused list, on a list with the same later view. */
  lemma NextCheckPasses(p: seq<real>, f: seq<real>, limit: nat, now: real, later: real)
    requires limit > 0 && Limited(f, limit, now) && Exceeds(f, limit, now) && SameView(p, f, later)
    ensures var live := Live(f, now - WINDOW);
            live != [] && (later >= now + RetryAfter(live, now) as real ==> !Exceeds(p, limit, later))
  {
    hide Live, RetryAfter, Sorted, Spaced, UpTo;
    RetryAfterIsRight(f, limit, now);
    assert Exceeds(p, limit, later) <==> Exceeds(f, limit, later);
  }

  /** In every run: when a login is answered with Retry-After because of its address, the
      next check of that address passes if it comes at least that many seconds after the
      refusing check, whatever other addresses did meanwhile. */
  lemma RetryAfterAdmitsAddress(before: seq<Attempt>, a: Attempt, others: seq<Attempt>, later: real)
    requires InOrder(before + [a] + others) && a.complete
    requires Exceeds(Of(Run(before, true).0.ips, a.ip), IP_LIMIT, a.ipAt)
    requires forall i :: 0 <= i < |others| ==> others[i].ip != a.ip
    requires (before + [a] + others)[|before| + |others|].doneAt <= later
    ensures |Run(before + [a], true).1| == |before| + 1
    ensures var r := Run(before + [a], true).1[|before|];
            r.TooMany? && (later >= a.ipAt + r.retry as real ==>
                             !Exceeds(Of(Run(before + [a] + others, true).0.ips, a.ip), IP_LIMIT, later))
  {
    hide Run, Live, RetryAfter, InOrder, Step, Limited, SameView, Exceeds, Of;
    Earlier(before, a, others);
    OneList(before, a.ip, a.ipAt);
    RefusedByAddress(before, a);
    OtherAddresses(before + [a], others, a.ip);
    OneList(before + [a] + others, a.ip, later);
    NextCheckPasses(Of(Run(before + [a] + others, true).0.ips, a.ip), Of(Run(before, false).0.ips, a.ip), IP_LIMIT,
                    a.ipAt, later);
  }

  /** ... and likewise for its identifier. */
  lemma RetryAfterAdmitsUser(before: seq<Attempt>, a: Attempt, others: seq<Attempt>, later: real)
    requires InOrder(before + [a] + others) && a.complete
    requires !Exceeds(Of(Run(before, true).0.ips, a.ip), IP_LIMIT, a.ipAt)
    requires Exceeds(Of(Run(before, true).0.users, a.user), USER_LIMIT, a.userAt)
    requires forall i :: 0 <= i < |others| ==> others[i].user != a.user
    requires (before + [a] + others)[|before| + |others|].doneAt <= later
    ensures |Run(before + [a], true).1| == |before| + 1
    ensures var r := Run(before + [a], true).1[|before|];
            r.TooMany? && (later >= a.userAt + r.retry as real ==>
                             !Exceeds(Of(Run(before + [a] + others, true).0.users, a.user), USER_LIMIT, later))
  {
    hide Run, Live, RetryAfter, InOrder, Step, Limited, SameView, Exceeds, Of;
    Earlier(before, a, others);
    OneList(before, a.user, a.userAt);
    RefusedByUser(before, a);
    OtherUsers(before + [a], others, a.user);
    OneList(before + [a] + others, a.user, later);
    NextCheckPasses(Of(Run(before + [a] + others, true).0.users, a.user), Of(Run(before, false).0.users, a.user),
                    USER_LIMIT, a.userAt, later);
  }

  lemma Earlier(before: seq<Attempt>, a: Attempt, others: seq<Attempt>)
    requires InOrder(before + [a] + others)
    ensures InOrder(before) && a.ipAt <= a.userAt <= a.doneAt
    ensures before != [] ==> before[|before| - 1].doneAt <= a.ipAt
    ensures a.doneAt <= (before + [a] + others)[|before| + |others|].doneAt
  {
    var all := before + [a] + others;
    assert forall i :: 0 <= i < |before| ==> all[i] == before[i];
    assert all[|before|] == a;
    TimesGrow(all, |before|, |before| + |others|);
  }

  lemma {:induction false} TimesGrow(attempts: seq<Attempt>, i: nat, j: nat)
    requires InOrder(attempts) && i <= j < |attempts|
    ensures attempts[i].doneAt <= attempts[j].doneAt
    decreases j
  {
    if i < j { TimesGrow(attempts, i, j - 1); }
  }

  /** A refusal leaves the unpruned lists as they were, and answers by the live failures. */
  lemma RefusedByAddress(before: seq<Attempt>, a: Attempt)
    requires a.complete && Exceeds(Of(Run(before, true).0.ips, a.ip), IP_LIMIT, a.ipAt)
    requires SameView(Of(Run(before, true).0.ips, a.ip), Of(Run(before, false).0.ips, a.ip), a.ipAt)
    ensures Exceeds(Of(Run(before, false).0.ips, a.ip), IP_LIMIT, a.ipAt)
    ensures Of(Run(before + [a], false).0.ips, a.ip) == Of(Run(before, false).0.ips, a.ip)
    ensures var live := Live(Of(Run(before, false).0.ips, a.ip), a.ipAt - WINDOW);
            live != [] && |Run(before + [a], true).1| == |before| + 1
            && Run(before + [a], true).1[|before|] == TooMany(RetryAfter(live, a.ipAt))
  {
    hide Live, RetryAfter, Run;
    RunOfConcat(before, a, true);
    RunOfConcat(before, a, false);
    AsManyResponses(before, true);
  }

  lemma RefusedByUser(before: seq<Attempt>, a: Attempt)
    requires a.complete && !Exceeds(Of(Run(before, true).0.ips, a.ip), IP_LIMIT, a.ipAt)
    requires Exceeds(Of(Run(before, true).0.users, a.user), USER_LIMIT, a.userAt)
    requires SameView(Of(Run(before, true).0.users, a.user), Of(Run(before, false).0.users, a.user), a.userAt)
    ensures Exceeds(Of(Run(before, false).0.users, a.user), USER_LIMIT, a.userAt)
    ensures Of(Run(before + [a], false).0.users, a.user) == Of(Run(before, false).0.users, a.user)
    ensures var live := Live(Of(Run(before, false).0.users, a.user), a.userAt - WINDOW);
            live != [] && |Run(before + [a], true).1| == |before| + 1
            && Run(before + [a], true).1[|before|] == TooMany(RetryAfter(live, a.userAt))
  {
    hide Live, RetryAfter, Run;
    RunOfConcat(before, a, true);
    RunOfConcat(before, a, false);
    AsManyResponses(before, true);
  }

  lemma {:induction false} AsManyResponses(attempts: seq<Attempt>, prune: bool)
    ensures |Run(attempts, prune).1| == |attempts|
  {
    hide Step;
    if attempts != [] { AsManyResponses(attempts[..|attempts| - 1], prune); }
  }

  // ---------------------------------------------------------------- who is refused

  datatype Bucket = OfAddress | OfUser

  predicate Mine(b: Bucket, key: string, a: Attempt) { key == match b case OfAddress => a.ip case OfUser => a.user }

  /** The answered failures of a key since its last success, read off what was asked and
      answered, in order. */
  function Recorded(b: Bucket, key: string, attempts: seq<Attempt>, answers: seq<Response>): seq<real>
    requires |attempts| == |answers|
  {
    if attempts == [] then []
    else
      var n := |attempts| - 1;
      var before := Recorded(b, key, attempts[..n], answers[..n]);
      if !Mine(b, key, attempts[n]) then before
      else if answers[n] == Welcome then []
      else if answers[n] == Denied then before + [attempts[n].doneAt]
      else before
  }

  /** How many of the times lie less than 15 minutes back. */
  function Recent(s: seq<real>, now: real): nat
  {
    if s == [] then 0 else Recent(s[..|s| - 1], now) + (if now - s[|s| - 1] < 900.0 then 1 else 0)
  }

  lemma {:induction false} RecentIsLive(s: seq<real>, now: real)
    ensures Recent(s, now) == |Live(s, now - WINDOW)|
  {
    if s != [] {
      var n := |s| - 1;
      RecentIsLive(s[..n], now);
      LiveOfSnoc(s[..n], s[n], now - WINDOW);
      assert s == s[..n] + [s[n]];
    }
  }

  function Lists(b: Bucket, t: Tables): Failures { match b case OfAddress => t.ips case OfUser => t.users }

  lemma StepRecords(b: Bucket, key: string, t: Tables, a: Attempt)
    ensures var (t', r) := Step(t, a, false);
            Of(Lists(b, t'), key) ==
            if !Mine(b, key, a) then Of(Lists(b, t), key)
            else if r == Welcome then [] else if r == Denied then Of(Lists(b, t), key) + [a.doneAt]
            else Of(Lists(b, t), key)
  {
    hide Live, RetryAfter;
  }

  /** The limiter that never forgets holds exactly the recorded failures. */
  lemma {:induction false} ListsAreRecorded(b: Bucket, key: string, attempts: seq<Attempt>)
    ensures |Run(attempts, false).1| == |attempts|
    ensures Of(Lists(b, Run(attempts, false).0), key) == Recorded(b, key, attempts, Run(attempts, false).1)
  {
    hide Step, Of;
    AsManyResponses(attempts, false);
    if attempts == [] {
      NothingRecorded(b, key);
    } else {
      var n := |attempts| - 1;
      ListsAreRecorded(b, key, attempts[..n]);
      StepRecords(b, key, Run(attempts[..n], false).0, attempts[n]);
      assert attempts == attempts[..n] + [attempts[n]];
      RunOfConcat(attempts[..n], attempts[n], false);
    }
  }

  lemma NothingRecorded(b: Bucket, key: string)
    ensures Of(Lists(b, Run([], false).0), key) == []
  {
  }

  /** The answer to every login of every run, in terms of what was asked and answered
      before: refused with Retry-After if and only if its address had ten recorded failures
      in the last 15 minutes or its identifier five, and otherwise by its own verdict. */
  lemma AnsweredExactly(before: seq<Attempt>, a: Attempt)
    requires InOrder(before + [a])
    ensures |Run(before, true).1| == |before| && |Run(before + [a], true).1| == |before| + 1
    ensures var answers, r := Run(before, true).1, Run(before + [a], true).1[|before|];
            var refused := Recent(Recorded(OfAddress, a.ip, before, answers), a.ipAt) >= 10
                           || Recent(Recorded(OfUser, a.user, before, answers), a.userAt) >= 5;
            && (r == BadRequest <==> !a.complete)
            && (r.TooMany? <==> a.complete && refused)
            && (r == Unavailable <==> a.complete && !refused && a.verdict == NextcloudDown)
            && (r == Welcome <==> a.complete && !refused && a.verdict == Accepted)
            && (r == Denied <==>
                a.complete && !refused
                && (a.verdict == UnknownUser || a.verdict == WrongPassword || a.verdict == NotOnTheList))
  {
    hide Live, RetryAfter, Run, Of, Recorded, Recent, Alike, Good, InOrder;
    OrderOfPrefix(before, a);
    AsManyResponses(before, true);
    RunOfConcat(before, a, true);
    RunOfConcat(before, a, false);
    PruningIsInvisible(before, a.ipAt);
    PruningIsInvisible(before + [a], a.doneAt);
    ListsAreRecorded(OfAddress, a.ip, before);
    ListsAreRecorded(OfUser, a.user, before);
    RecentIsLive(Recorded(OfAddress, a.ip, before, Run(before, true).1), a.ipAt);
    RecentIsLive(Recorded(OfUser, a.user, before, Run(before, true).1), a.userAt);
  }

  lemma OrderOfPrefix(before: seq<Attempt>, a: Attempt)
    requires InOrder(before + [a])
    ensures InOrder(before) && a.ipAt <= a.userAt <= a.doneAt
    ensures before != [] ==> before[|before| - 1].doneAt <= a.ipAt
  {
    var all := before + [a];
    assert forall i :: 0 <= i < |before| ==> all[i] == before[i];
    assert all[|before|] == a;
  }
}
