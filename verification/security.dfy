/**
 * Request and input hygiene (backend/security.py): command sanitisation, the
 * error-log spam predicate and the per-key sliding-window rate limiter.
 * Times are `time.time()` values, supplied as parameters.
 */
module Security {
  import opened Wrappers
  import opened Text
  import opened Deque

  // ---------------------------------------------------------------------------
  // Command sanitisation
  // ---------------------------------------------------------------------------

  /** The characters `sanitize_input` deletes, in the order it deletes them. */
  const DangerousChars: seq<char> := [';', '&', '|', '`', '$', '(', ')', '{', '}', '<', '>']

  const MaxCommandLength: nat := 200

  predicate IsDangerous(c: char) {
    c in DangerousChars
  }

  /** No shell metacharacter anywhere in `s`. */
  predicate Clean(s: string) {
    forall i :: 0 <= i < |s| ==> !IsDangerous(s[i])
  }

  /** A text with an embedded newline can be clean. */
  lemma NewlineTextClean()
    ensures Clean("a\nb")
  {
    var t := "a\nb";
    assert |t| == 3 && t[0] == 'a' && t[1] == '\n' && t[2] == 'b';
  }

  /** A newline is not a metacharacter: a clean text stays clean as a line. */
  lemma CleanLine(s: string)
    requires Clean(s)
    ensures Clean(s + "\n")
  {
    assert !IsDangerous('\n');
    forall i | 0 <= i < |s + "\n"|
      ensures !IsDangerous((s + "\n")[i])
    {
      if i < |s| {
        assert (s + "\n")[i] == s[i];
      }
    }
  }

  /** `s` with every character of `bad` deleted: the reference reading of the deletion loop. */
  function FilterOut(s: string, bad: set<char>): (r: string)
    ensures |r| <= |s|
    ensures forall i :: 0 <= i < |r| ==> r[i] !in bad
    decreases |s|
  {
    if s == [] then []
    else if s[0] in bad then FilterOut(s[1..], bad)
    else [s[0]] + FilterOut(s[1..], bad)
  }

  lemma {:induction false} FilterOutSubsequence(s: string, bad: set<char>)
    ensures IsSubsequence(FilterOut(s, bad), s)
    decreases |s|
  {
    if s != [] {
      FilterOutSubsequence(s[1..], bad);
      var f := FilterOut(s, bad);
      if s[0] !in bad {
        assert f[0] == s[0] && f[1..] == FilterOut(s[1..], bad);
      }
    }
  }

  lemma {:induction false} FilterOutClean(s: string, bad: set<char>)
    requires forall i :: 0 <= i < |s| ==> s[i] !in bad
    ensures FilterOut(s, bad) == s
    decreases |s|
  {
    if s != [] {
      FilterOutClean(s[1..], bad);
      assert [s[0]] + s[1..] == s;
    }
  }

  lemma {:induction false} ReplaceByNothingIsFilter(s: string, c: char)
    ensures Replace(s, c, "") == FilterOut(s, {c})
    decreases |s|
  {
    if s != [] {
      ReplaceByNothingIsFilter(s[1..], c);
    }
  }

  lemma {:induction false} FilterOutTwice(s: string, a: set<char>, b: set<char>)
    ensures FilterOut(FilterOut(s, a), b) == FilterOut(s, a + b)
    decreases |s|
  {
    if s != [] {
      FilterOutTwice(s[1..], a, b);
      if s[0] !in a {
        var f := FilterOut(s, a);
        assert f[0] == s[0] && f[1..] == FilterOut(s[1..], a);
      }
    }
  }

  /** The source's loop: `for ch in dangerous: text = text.replace(ch, '')`. */
  function DeleteEach(s: string, chars: seq<char>): string
    decreases |chars|
  {
    if chars == [] then s else DeleteEach(Replace(s, chars[0], ""), chars[1..])
  }

  /** Deleting the characters one after another is one filter by all of them. */
  lemma {:induction false} DeleteEachIsFilter(s: string, chars: seq<char>)
    ensures DeleteEach(s, chars) == FilterOut(s, set c | c in chars)
    decreases |chars|
  {
    if chars == [] {
      assert (set c | c in chars) == {};
      FilterOutClean(s, {});
    } else {
      var s1 := Replace(s, chars[0], "");
      DeleteEachIsFilter(s1, chars[1..]);
      ReplaceByNothingIsFilter(s, chars[0]);
      FilterOutTwice(s, {chars[0]}, set c | c in chars[1..]);
      assert {chars[0]} + (set c | c in chars[1..]) == set c | c in chars;
    }
  }

  /** The first `n` characters, as Python's `text[:n]`. */
  function Take(s: string, n: nat): (r: string)
    ensures |r| <= n && |r| <= |s| && r == s[..|r|]
    ensures |s| <= n ==> r == s
    ensures |s| > n ==> |r| == n
  {
    if |s| <= n then s else s[..n]
  }

  /** `sanitize_input` on a string. */
  function SanitizeText(s: string): string {
    Take(DeleteEach(s, DangerousChars), MaxCommandLength)
  }

  /**
   * The sanitised text is the input with the dangerous characters deleted and
   * then cut to 200 characters; so it has none of them, is at most 200 long,
   * and is a subsequence of the input.
   */
  lemma SanitizeTextSpec(s: string)
    ensures SanitizeText(s) == Take(FilterOut(s, set c | c in DangerousChars), MaxCommandLength)
    ensures Clean(SanitizeText(s))
    ensures |SanitizeText(s)| <= MaxCommandLength
    ensures IsSubsequence(SanitizeText(s), s)
  {
    var bad := set c | c in DangerousChars;
    DeleteEachIsFilter(s, DangerousChars);
    var f := FilterOut(s, bad);
    FilterOutSubsequence(s, bad);
    SubsequencePrefix(f, s, |SanitizeText(s)|);
  }

  /** A short input without dangerous characters is passed through unchanged. */
  lemma SanitizeTextClean(s: string)
    requires |s| <= MaxCommandLength && Clean(s)
    ensures SanitizeText(s) == s
  {
    DeleteEachIsFilter(s, DangerousChars);
    FilterOutClean(s, set c | c in DangerousChars);
  }

  /** Sanitising twice is sanitising once. */
  lemma SanitizeTextIdempotent(s: string)
    ensures SanitizeText(SanitizeText(s)) == SanitizeText(s)
  {
    SanitizeTextSpec(s);
    SanitizeTextClean(SanitizeText(s));
  }

  /**
   * `sanitize_input(text)`: `None` and the empty string come back unchanged
   * (`if not text: return text`); any other text is sanitised.
   */
  function SanitizeInput(text: Option<string>): (r: Option<string>)
    ensures r.None? <==> text.None?
    ensures text == Some("") ==> r == text
    ensures r.Some? ==> r.value == SanitizeText(text.value)
  {
    match text
    case None => None
    case Some(s) =>
      if s == [] then assert SanitizeText(s) == [] by { SanitizeTextSpec(s); } Some(s)
      else Some(SanitizeText(s))
  }

  // ---------------------------------------------------------------------------
  // Spam detection
  // ---------------------------------------------------------------------------

  const SpamThreshold: nat := 100
  const SpamWindow: real := 60.0

  /** `[ts for ts in logs if now - ts < window]`. */
  function Recent(stamps: seq<real>, now: real, window: real): (r: seq<real>)
    ensures |r| <= |stamps|
    ensures forall i :: 0 <= i < |r| ==> now - r[i] < window
    decreases |stamps|
  {
    if stamps == [] then []
    else (if now - stamps[0] < window then [stamps[0]] else []) + Recent(stamps[1..], now, window)
  }

  lemma {:induction false} RecentAppend(a: seq<real>, b: seq<real>, now: real, window: real)
    ensures Recent(a + b, now, window) == Recent(a, now, window) + Recent(b, now, window)
    decreases |a|
  {
    if a == [] {
      assert a + b == b;
    } else {
      assert (a + b)[1..] == a[1..] + b;
      RecentAppend(a[1..], b, now, window);
    }
  }

  /** When every stamp is within the window, all of them are recent. */
  lemma {:induction false} RecentAll(stamps: seq<real>, now: real, window: real)
    requires forall i :: 0 <= i < |stamps| ==> now - stamps[i] < window
    ensures Recent(stamps, now, window) == stamps
    decreases |stamps|
  {
    if stamps != [] {
      RecentAll(stamps[1..], now, window);
      assert [stamps[0]] + stamps[1..] == stamps;
    }
  }

  /** `check_spam_logs(logs, threshold, window)` with the clock read supplied as `now`. */
  function CheckSpamLogs(stamps: seq<real>, now: real, threshold: nat, window: real): (spam: bool)
    ensures spam ==> |stamps| > threshold
  {
    |Recent(stamps, now, window)| > threshold
  }

  /** Spam is flagged exactly when more than `threshold` stamps are within the window. */
  lemma {:induction false} CheckSpamCounts(stamps: seq<real>, now: real, threshold: nat, window: real)
    ensures CheckSpamLogs(stamps, now, threshold, window)
            <==> CountWithin(stamps, now, window) > threshold
    decreases |stamps|
  {
    RecentCount(stamps, now, window);
  }

  /** Number of stamps `t` with `now - t < window`, counted independently of `Recent`. */
  function CountWithin(stamps: seq<real>, now: real, window: real): nat
    decreases |stamps|
  {
    if stamps == [] then 0
    else CountWithin(stamps[..|stamps| - 1], now, window)
         + (if now - stamps[|stamps| - 1] < window then 1 else 0)
  }

  lemma {:induction false} RecentCount(stamps: seq<real>, now: real, window: real)
    ensures |Recent(stamps, now, window)| == CountWithin(stamps, now, window)
    decreases |stamps|
  {
    if stamps != [] {
      var init := stamps[..|stamps| - 1];
      var last := stamps[|stamps| - 1];
      assert stamps == init + [last];
      RecentAppend(init, [last], now, window);
      RecentCount(init, now, window);
      assert [last][1..] == [];
    }
  }

  /** For a fixed `now`, inserting a stamp anywhere never clears the spam flag. */
  lemma AddingStampKeepsSpam(a: seq<real>, b: seq<real>, t: real, now: real, threshold: nat, window: real)
    requires CheckSpamLogs(a + b, now, threshold, window)
    ensures CheckSpamLogs(a + [t] + b, now, threshold, window)
  {
    RecentAppend(a, b, now, window);
    RecentAppend(a + [t], b, now, window);
    RecentAppend(a, [t], now, window);
  }

  /** The error-timestamp window `deque(maxlen=200)`. */
  const ErrorWindowSize: nat := 200

  /**
   * Appending 101 error stamps, all within the last 60 seconds, to the empty
   * window flags spam at the 101st append and not before.
   */
  lemma {:induction false} HundredAndFirstErrorIsSpam(stamps: seq<real>, now: real)
    requires |stamps| == SpamThreshold + 1
    requires forall i :: 0 <= i < |stamps| ==> now - stamps[i] < SpamWindow
    ensures !CheckSpamLogs(AppendAll([], stamps[..SpamThreshold], ErrorWindowSize), now, SpamThreshold, SpamWindow)
    ensures CheckSpamLogs(AppendAll([], stamps, ErrorWindowSize), now, SpamThreshold, SpamWindow)
  {
    AppendAllKeepsNewest([], stamps[..SpamThreshold], ErrorWindowSize);
    AppendAllKeepsNewest([], stamps, ErrorWindowSize);
    assert [] + stamps == stamps;
    RecentAll(stamps, now, SpamWindow);
  }

  // ---------------------------------------------------------------------------
  // Rate limiting
  // ---------------------------------------------------------------------------

  const RateLimitCount: nat := 5
  const RateWindow: real := 10.0

  /** `[t for t in window if t > now - RATE_WINDOW]`. */
  function Prune(w: seq<real>, now: real): (r: seq<real>)
    ensures |r| <= |w|
    ensures forall i :: 0 <= i < |r| ==> r[i] > now - RateWindow
    decreases |w|
  {
    if w == [] then []
    else (if w[0] > now - RateWindow then [w[0]] else []) + Prune(w[1..], now)
  }

  lemma {:induction false} PruneAppend(a: seq<real>, b: seq<real>, now: real)
    ensures Prune(a + b, now) == Prune(a, now) + Prune(b, now)
    decreases |a|
  {
    if a == [] {
      assert a + b == b;
    } else {
      assert (a + b)[1..] == a[1..] + b;
      PruneAppend(a[1..], b, now);
    }
  }

  /** Pruning at an earlier time, then at a later one, is pruning at the later one. */
  lemma {:induction false} PruneTwice(w: seq<real>, earlier: real, later: real)
    requires earlier <= later
    ensures Prune(Prune(w, earlier), later) == Prune(w, later)
    decreases |w|
  {
    if w != [] {
      PruneTwice(w[1..], earlier, later);
      var head := if w[0] > earlier - RateWindow then [w[0]] else [];
      PruneAppend(head, Prune(w[1..], earlier), later);
      assert head[..] == head;
      if w[0] > earlier - RateWindow {
        assert Prune(head, later) == Prune([w[0]], later);
        assert [w[0]][1..] == [];
      }
    }
  }

  /** The decision for one request on one key's window, and that window afterwards. */
  datatype Admit = Admit(allowed: bool, window: seq<real>)

  /**
   * One pass through the decorator for a key: drop stamps older than 10 seconds,
   * refuse when 5 remain (the pruned window is kept, `now` is not added),
   * otherwise record `now`.
   */
  function AdmitRequest(w: seq<real>, now: real): (d: Admit)
    ensures d.allowed <==> |Prune(w, now)| < RateLimitCount
    ensures d.allowed ==> d.window == Prune(w, now) + [now]
    ensures !d.allowed ==> d.window == Prune(w, now)
    ensures |w| <= RateLimitCount ==> |d.window| <= RateLimitCount
  {
    var kept := Prune(w, now);
    if |kept| >= RateLimitCount then Admit(false, kept) else Admit(true, kept + [now])
  }

  /** The decision for one request and the whole `rate_limit_storage` afterwards. */
  datatype RateDecision<K> = RateDecision(allowed: bool, storage: map<K, seq<real>>)

  /** `rate_limit`'s wrapper: `rate_limit_storage` is a `defaultdict(list)`. */
  function RateLimit<K>(storage: map<K, seq<real>>, key: K, now: real): (d: RateDecision<K>)
    ensures key in d.storage
    ensures d.allowed <==> |Prune(if key in storage then storage[key] else [], now)| < RateLimitCount
    ensures d.storage[key] == AdmitRequest(if key in storage then storage[key] else [], now).window
    ensures d.storage.Keys == storage.Keys + {key}
    ensures forall k :: k in storage && k != key ==> d.storage[k] == storage[k]
  {
    var a := AdmitRequest(if key in storage then storage[key] else [], now);
    RateDecision(a.allowed, storage[key := a.window])
  }

  /** Every stored window keeps at most 5 stamps, whatever sequence of requests arrives. */
  lemma RateLimitKeepsWindowsSmall<K>(storage: map<K, seq<real>>, key: K, now: real)
    requires forall k :: k in storage ==> |storage[k]| <= RateLimitCount
    ensures forall k :: k in RateLimit(storage, key, now).storage
              ==> |RateLimit(storage, key, now).storage[k]| <= RateLimitCount
  {
  }

  /** The accepted requests of a run and the window left behind. */
  datatype Replay = Replay(window: seq<real>, accepted: seq<real>)

  /** Feeding the request times `reqs` for one key through the limiter in order. */
  function ReplayRequests(w: seq<real>, reqs: seq<real>): (r: Replay)
    ensures |w| <= RateLimitCount ==> |r.window| <= RateLimitCount
    decreases |reqs|
  {
    if reqs == [] then Replay(w, [])
    else
      var d := AdmitRequest(w, reqs[0]);
      var rest := ReplayRequests(d.window, reqs[1..]);
      Replay(rest.window, (if d.allowed then [reqs[0]] else []) + rest.accepted)
  }

  predicate NonDecreasing(xs: seq<real>) {
    forall i, j :: 0 <= i < j < |xs| ==> xs[i] <= xs[j]
  }

  /** One request keeps the window equal to the accepted history pruned at the current time. */
  lemma AdmitTracksHistory(w: seq<real>, history: seq<real>, last: real, now: real)
    requires last <= now
    requires w == Prune(history, last)
    ensures AdmitRequest(w, now).window
            == Prune(history + (if AdmitRequest(w, now).allowed then [now] else []), now)
  {
    PruneTwice(history, last, now);
    if AdmitRequest(w, now).allowed {
      PruneAppend(history, [now], now);
      assert [now][1..] == [];
    } else {
      assert history + [] == history;
    }
  }

  lemma {:induction false} ReplayTracksAccepted(w: seq<real>, history: seq<real>, last: real, reqs: seq<real>)
    requires NonDecreasing(reqs)
    requires reqs != []
    requires last <= reqs[0]
    requires w == Prune(history, last)
    ensures ReplayRequests(w, reqs).window
            == Prune(history + ReplayRequests(w, reqs).accepted, reqs[|reqs| - 1])
    decreases |reqs|
  {
    var now := reqs[0];
    var d := AdmitRequest(w, now);
    var step := if d.allowed then [now] else [];
    var h1 := history + step;
    AdmitTracksHistory(w, history, last, now);
    var rest := ReplayRequests(d.window, reqs[1..]);
    assert ReplayRequests(w, reqs).accepted == step + rest.accepted;
    assert history + (step + rest.accepted) == h1 + rest.accepted;
    if |reqs| == 1 {
      assert h1 + rest.accepted == h1;
    } else {
      ReplayTracksAccepted(d.window, h1, now, reqs[1..]);
    }
  }

  /**
   * For request times that never go backwards, at most 5 of the accepted
   * requests fall in the 10 seconds before the latest request.
   */
  lemma AtMostFiveAcceptedPerWindow(reqs: seq<real>)
    requires NonDecreasing(reqs)
    requires reqs != []
    ensures |Prune(ReplayRequests([], reqs).accepted, reqs[|reqs| - 1])| <= RateLimitCount
  {
    ReplayTracksAccepted([], [], reqs[0], reqs);
    assert [] + ReplayRequests([], reqs).accepted == ReplayRequests([], reqs).accepted;
  }
}
