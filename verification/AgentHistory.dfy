/** History trimming in the agent (src/agent/agent.c). */
module AgentHistory {

  // ---------------------------------------------------------------- messages and trimming

  datatype Role = System | User | Assistant | Tool

  datatype Message = Message(role: Role, content: string)

  const MAX_HISTORY := 50
  const KEEP_RECENT := 20

  /** The system messages (or the others), in order. */
  function Pick(ms: seq<Message>, sys: bool): (r: seq<Message>)
    ensures |r| <= |ms|
  {
    if ms == [] then []
    else
      var n := |ms| - 1;
      Pick(ms[..n], sys) + if (ms[n].role == System) == sys then [ms[n]] else []
  }

  function Systems(ms: seq<Message>): seq<Message> {
    Pick(ms, true)
  }

  function Others(ms: seq<Message>): seq<Message> {
    Pick(ms, false)
  }

  lemma {:induction false} PickCounts(ms: seq<Message>)
    ensures |Systems(ms)| + |Others(ms)| == |ms|
    decreases ms
  {
    if ms != [] {
      PickCounts(ms[..|ms| - 1]);
    }
  }

  /** The last `k` elements, last first. */
  function LastReversed(ms: seq<Message>, k: nat): (r: seq<Message>)
    requires k <= |ms|
    ensures |r| == k && forall i :: 0 <= i < k ==> r[i] == ms[|ms| - 1 - i]
  {
    seq(k, i requires 0 <= i < k => ms[|ms| - 1 - i])
  }

  function Trimmed(ms: seq<Message>): seq<Message> {
    if |Others(ms)| <= MAX_HISTORY then ms
    else Systems(ms) + LastReversed(Others(ms), KEEP_RECENT)
  }

  lemma {:induction false} PickSnoc(ms: seq<Message>, i: nat, sys: bool)
    requires i < |ms|
    ensures Pick(ms[..i + 1], sys) == Pick(ms[..i], sys) + (if (ms[i].role == System) == sys then [ms[i]] else [])
  {
    assert ms[..i + 1][..i] == ms[..i];
  }

  /** What is picked from a prefix is a prefix of what is picked. */
  lemma {:induction false} PickPrefix(ms: seq<Message>, i: nat, sys: bool)
    requires i <= |ms|
    ensures Pick(ms[..i], sys) <= Pick(ms, sys)
    decreases |ms| - i
  {
    if i == |ms| {
      assert ms[..i] == ms;
    } else {
      PickPrefix(ms, i + 1, sys);
      PickSnoc(ms, i, sys);
    }
  }

  /** The first copy loop: the system messages, oldest first, until all have been seen. */
  method CopySystems(ms: seq<Message>) returns (kept: seq<Message>)
    ensures kept == Systems(ms)
  {
    var count := 0;
    for i := 0 to |ms|
      invariant count == |Systems(ms[..i])|
    {
      PickSnoc(ms, i, true);
      if ms[i].role == System {
        count := count + 1;
      }
    }
    assert ms[..|ms|] == ms;
    kept := [];
    var i := 0;
    while i < |ms| && |kept| < count
      invariant 0 <= i <= |ms|
      invariant kept == Systems(ms[..i])
    {
      PickSnoc(ms, i, true);
      if ms[i].role == System {
        kept := kept + [ms[i]];
      }
      i := i + 1;
    }
    PickPrefix(ms, i, true);
  }

  lemma {:induction false} ReversedSnoc(all: seq<Message>, k: nat)
    requires k < |all|
    ensures LastReversed(all, k + 1) == LastReversed(all, k) + [all[|all| - 1 - k]]
  {
  }

  /** The second copy loop: the newest other messages, newest first. */
  method CopyRecent(ms: seq<Message>, k: nat) returns (kept: seq<Message>)
    requires k <= |Others(ms)|
    ensures kept == LastReversed(Others(ms), k)
  {
    kept := [];
    var i := |ms|;
    assert ms[..|ms|] == ms;
    ghost var all := Others(ms);
    while i > 0 && |kept| < k
      invariant 0 <= i <= |ms| && |kept| <= k
      invariant |Others(ms[..i])| == |all| - |kept|
      invariant kept == LastReversed(all, |kept|)
      decreases i
    {
      PickSnoc(ms, i - 1, false);
      PickPrefix(ms, i, false);
      if ms[i - 1].role != System {
        ReversedSnoc(all, |kept|);
        kept := kept + [ms[i - 1]];
      }
      i := i - 1;
    }
  }

  /** agent_trim_history. */
  method TrimHistory(ms: seq<Message>) returns (r: seq<Message>)
    ensures r == Trimmed(ms)
  {
    PickCounts(ms);
    if |ms| <= MAX_HISTORY {
      return ms;
    }
    var systems := CopySystems(ms);
    var others := |ms| - |systems|;
    if others <= MAX_HISTORY {
      return ms;
    }
    var recent := CopyRecent(ms, KEEP_RECENT);
    r := systems + recent;
  }

  // ---------------------------------------------------------------- what trimming keeps

  lemma {:induction false} PickConcat(a: seq<Message>, b: seq<Message>, sys: bool)
    ensures Pick(a + b, sys) == Pick(a, sys) + Pick(b, sys)
    decreases b
  {
    if b == [] {
      assert a + b == a;
    } else {
      var n := |b| - 1;
      PickConcat(a, b[..n], sys);
      assert (a + b)[..|a| + n] == a + b[..n];
      var last := if (b[n].role == System) == sys then [b[n]] else [];
      assert Pick(a + b, sys) == Pick(a, sys) + Pick(b[..n], sys) + last;
      Regroup(Pick(a, sys), Pick(b[..n], sys), last);
    }
  }

  lemma {:induction false} Regroup(a: seq<Message>, b: seq<Message>, c: seq<Message>)
    ensures a + b + c == a + (b + c)
  {
  }

  ghost predicate AllAre(ms: seq<Message>, sys: bool) {
    forall i :: 0 <= i < |ms| ==> (ms[i].role == System) == sys
  }

  lemma {:induction false} PickAll(ms: seq<Message>, sys: bool)
    requires AllAre(ms, sys)
    ensures Pick(ms, sys) == ms
    decreases ms
  {
    if ms != [] {
      PickAll(ms[..|ms| - 1], sys);
    }
  }

  lemma {:induction false} PickNone(ms: seq<Message>, sys: bool)
    requires AllAre(ms, sys)
    ensures Pick(ms, !sys) == []
    decreases ms
  {
    if ms != [] {
      PickNone(ms[..|ms| - 1], sys);
    }
  }

  lemma {:induction false} PickIs(ms: seq<Message>, sys: bool)
    ensures AllAre(Pick(ms, sys), sys)
    decreases ms
  {
    if ms != [] {
      PickIs(ms[..|ms| - 1], sys);
    }
  }

  /** Trimming keeps every system message in order, and at most fifty others: the last twenty if it cut. */
  lemma {:induction false} TrimmedKeeps(ms: seq<Message>)
    ensures Systems(Trimmed(ms)) == Systems(ms)
    ensures |Others(Trimmed(ms))| <= MAX_HISTORY == 50
    ensures Others(Trimmed(ms)) ==
            if |Others(ms)| <= 50 then Others(ms) else LastReversed(Others(ms), 20)
  {
    if |Others(ms)| > MAX_HISTORY {
      var s, o := Systems(ms), LastReversed(Others(ms), KEEP_RECENT);
      PickIs(ms, true);
      PickIs(ms, false);
      PickAll(s, true);
      PickNone(s, true);
      PickAll(o, false);
      PickNone(o, false);
      PickConcat(s, o, true);
      PickConcat(s, o, false);
      assert s + [] == s;
    }
  }

  /**
   * Against the log of all non-system messages ever added, `os` is a final stretch of it whose first
   * `p` messages stand in reverse order: what the last cut left.
   */
  ghost predicate Newest(os: seq<Message>, log: seq<Message>, p: nat) {
    && |os| <= |log| && p <= |os| && (p == 0 || p == KEEP_RECENT)
    && (forall i :: 0 <= i < p ==> os[i] == log[|log| - |os| + p - 1 - i])
    && (forall i :: p <= i < |os| ==> os[i] == log[|log| - |os| + i])
  }

  ghost predicate Chronicle(ms: seq<Message>, log: seq<Message>) {
    exists p: nat :: Newest(Others(ms), log, p)
  }

  lemma {:induction false} ReversedSameBag(s: seq<Message>, r: seq<Message>)
    requires |r| == |s| && forall i :: 0 <= i < |s| ==> r[i] == s[|s| - 1 - i]
    ensures multiset(r) == multiset(s)
    decreases s
  {
    if s != [] {
      var n := |s| - 1;
      ReversedSameBag(s[1..], r[..n]);
      assert s == [s[0]] + s[1..];
      assert r == r[..n] + [r[n]];
    }
  }

  /** Nothing newer was ever dropped in favour of something older: the others are the newest ones added. */
  lemma {:induction false} KeptAreNewest(ms: seq<Message>, log: seq<Message>)
    requires Chronicle(ms, log)
    ensures |Others(ms)| <= |log| && multiset(Others(ms)) == multiset(log[|log| - |Others(ms)|..])
  {
    var os := Others(ms);
    var p: nat :| Newest(os, log, p);
    var tail := log[|log| - |os|..];
    NewestParts(os, log, p);
    ReversedSameBag(tail[..p], os[..p]);
    SplitBag(os, p);
    SplitBag(tail, p);
  }

  lemma {:induction false} NewestParts(os: seq<Message>, log: seq<Message>, p: nat)
    requires Newest(os, log, p)
    ensures var tail := log[|log| - |os|..];
      os[p..] == tail[p..] && forall i :: 0 <= i < p ==> os[..p][i] == tail[..p][p - 1 - i]
  {
    var tail := log[|log| - |os|..];
    assert forall i :: 0 <= i < |os| ==> tail[i] == log[|log| - |os| + i];
  }

  lemma {:induction false} SplitBag(s: seq<Message>, p: nat)
    requires p <= |s|
    ensures multiset(s) == multiset(s[..p]) + multiset(s[p..])
  {
    assert s == s[..p] + s[p..];
  }

  /** A cut falls among the messages that are in order. */
  lemma {:induction false} NewestAfterCut(os: seq<Message>, log: seq<Message>, p: nat)
    requires Newest(os, log, p) && |os| > MAX_HISTORY
    ensures Newest(LastReversed(os, KEEP_RECENT), log, KEEP_RECENT)
  {
  }

  lemma {:induction false} TrimKeepsChronicle(ms: seq<Message>, log: seq<Message>)
    requires Chronicle(ms, log)
    ensures Chronicle(Trimmed(ms), log)
  {
    var os := Others(ms);
    var p: nat :| Newest(os, log, p);
    TrimmedKeeps(ms);
    if |os| > MAX_HISTORY {
      NewestAfterCut(os, log, p);
    } else {
      assert Newest(Others(Trimmed(ms)), log, p);
    }
  }

  lemma {:induction false} AddKeepsChronicle(ms: seq<Message>, log: seq<Message>, m: Message)
    requires Chronicle(ms, log) && m.role != System
    ensures Chronicle(ms + [m], log + [m])
    ensures Systems(ms + [m]) == Systems(ms)
  {
    var os := Others(ms);
    var p: nat :| Newest(os, log, p);
    assert (ms + [m])[..|ms|] == ms;
    assert Others(ms + [m]) == os + [m];
    assert Newest(os + [m], log + [m], p);
  }
}
