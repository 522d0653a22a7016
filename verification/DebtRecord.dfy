/** How long a debt is remembered: exactly until as many others as the list holds are newer.

  The recency list is replayed from the record of what befell it. A debt stands behind the
  ones kept after it and not gone since, and the list forgets from its end.
 */
module DebtRecord {
  import opened SchedulerState
  import opened SchedulerSteps
  import opened SchedulerInvariant

  function Apply(b: Budget, lru: seq<History>, t: Touch): seq<History> {
    match t
    case Kept(h) => Remember(b, lru, false, h)
    case Gone(key) => Forget(lru, key)
    case GoneAll(c) => ForgetCommunity(lru, c)
  }

  function Replay(b: Budget, touches: seq<Touch>): seq<History> {
    if touches == [] then [] else Apply(b, Replay(b, touches[..|touches| - 1]), touches[|touches| - 1])
  }

  predicate Touching(t: Touch, key: HistoryKey) {
    match t
    case Kept(h) => h.key == key
    case Gone(k) => k == key
    case GoneAll(c) => c == key.community
  }

  /** Nothing befell this key since: its holder did not return, nor was its community deleted. */
  ghost predicate Untouched(touches: seq<Touch>, since: nat, key: HistoryKey) {
    forall j :: since <= j < |touches| ==> !Touching(touches[j], key)
  }

  function WithoutCommunity(keys: set<HistoryKey>, c: string): set<HistoryKey> { set k | k in keys && k.community != c }

  function ApplyKeys(keys: set<HistoryKey>, t: Touch): set<HistoryKey> {
    match t
    case Kept(h) => keys + {h.key}
    case Gone(key) => keys - {key}
    case GoneAll(c) => WithoutCommunity(keys, c)
  }

  /** Whoever was kept from touch `since` on, and is not gone again by touch `n`. */
  function Newer(touches: seq<Touch>, since: nat, n: nat): set<HistoryKey>
    requires since <= n <= |touches|
  {
    if n == since then {} else ApplyKeys(Newer(touches, since, n - 1), touches[n - 1])
  }

  /** At some moment so far there were as many newer debts as the list holds. */
  ghost predicate CrowdedBy(b: Budget, touches: seq<Touch>, since: nat, n: nat)
    requires since <= n <= |touches|
  {
    exists m :: since <= m <= n && |Newer(touches, since, m)| >= HistoryBound(b)
  }

  ghost predicate Crowded(b: Budget, touches: seq<Touch>, since: nat)
    requires since <= |touches|
  {
    CrowdedBy(b, touches, since, |touches|)
  }

  // ---------- Positions in the list ----------

  ghost predicate OneEach(lru: seq<History>) { forall i, j :: 0 <= i < j < |lru| ==> lru[i].key != lru[j].key }

  /** The keys in front of this one. */
  function Ahead(lru: seq<History>, key: HistoryKey): set<HistoryKey> {
    if lru == [] || lru[0].key == key then {} else {lru[0].key} + Ahead(lru[1..], key)
  }

  lemma {:induction false} AheadIn(lru: seq<History>, key: HistoryKey, k: HistoryKey)
    requires k in Ahead(lru, key)
    ensures k != key && exists i :: 0 <= i < |lru| && lru[i].key == k
  {
    if k == lru[0].key {
      assert lru[0].key == k;
    } else {
      AheadIn(lru[1..], key, k);
      var i :| 0 <= i < |lru[1..]| && lru[1..][i].key == k;
      assert lru[i + 1].key == k;
    }
  }

  /** The list cut at its bound keeps a debt exactly if fewer than that are in front of it. */
  lemma {:induction false} CutKeeps(lru: seq<History>, key: HistoryKey, bound: nat)
    requires OneEach(lru) && Recall(lru, key).Some? && bound <= |lru|
    ensures if |Ahead(lru, key)| < bound then Recall(lru[..bound], key) == Recall(lru, key) && Ahead(lru[..bound], key) == Ahead(lru, key)
            else Recall(lru[..bound], key) == None
    decreases |lru|
  {
    if bound > 0 && lru[0].key != key {
      assert lru[..bound][0] == lru[0] && lru[..bound][1..] == lru[1..][..bound - 1];
      CutKeeps(lru[1..], key, bound - 1);
      HeadNotAhead(lru, key);
    }
  }

  lemma HeadNotAhead(lru: seq<History>, key: HistoryKey)
    requires OneEach(lru) && lru != [] && lru[0].key != key
    ensures lru[0].key !in Ahead(lru[1..], key) && |Ahead(lru, key)| == |Ahead(lru[1..], key)| + 1
  {
    if lru[0].key in Ahead(lru[1..], key) { AheadIn(lru[1..], key, lru[0].key); }
    assert forall i :: 0 <= i < |lru[1..]| ==> lru[1..][i] == lru[i + 1];
  }

  lemma {:induction false} CutForgets(lru: seq<History>, key: HistoryKey, bound: nat)
    requires Recall(lru, key) == None && bound <= |lru|
    ensures Recall(lru[..bound], key) == None
    decreases |lru|
  {
    if bound > 0 {
      assert lru[..bound][0] == lru[0] && lru[..bound][1..] == lru[1..][..bound - 1];
      CutForgets(lru[1..], key, bound - 1);
    }
  }

  lemma {:induction false} ForgetOther(lru: seq<History>, key: HistoryKey, other: HistoryKey)
    requires key != other
    ensures Recall(Forget(lru, other), key) == Recall(lru, key)
    ensures Recall(lru, key).Some? && OneEach(lru) ==> Ahead(Forget(lru, other), key) == Ahead(lru, key) - {other}
  {
    if lru != [] {
      ForgetOther(lru[1..], key, other);
      if lru[0].key == other && OneEach(lru) { HeadNotAhead(lru, key); }
    }
  }

  lemma {:induction false} ForgetOthers(lru: seq<History>, key: HistoryKey, c: string)
    requires key.community != c
    ensures Recall(ForgetCommunity(lru, c), key) == Recall(lru, key)
    ensures Recall(lru, key).Some? ==> Ahead(ForgetCommunity(lru, c), key) == WithoutCommunity(Ahead(lru, key), c)
  {
    if lru != [] { ForgetOthers(lru[1..], key, c); }
  }

  lemma {:induction false} ReplayDistinct(b: Budget, touches: seq<Touch>)
    ensures OneEach(Replay(b, touches))
    decreases |touches|
  {
    hide Forget, ForgetCommunity, HistoryBound;
    if touches != [] {
      var before := Replay(b, touches[..|touches| - 1]);
      ReplayDistinct(b, touches[..|touches| - 1]);
      match touches[|touches| - 1]
      case Kept(h) =>
        ForgetKeeps(before, h.key);
        FrontDistinct(h, Forget(before, h.key));
      case Gone(key) => ForgetKeeps(before, key);
      case GoneAll(c) => ForgetCommunityKeeps(before, c);
    }
  }

  lemma FrontDistinct(h: History, rest: seq<History>)
    requires OneEach(rest) && forall x :: x in rest ==> x.key != h.key
    ensures OneEach([h] + rest)
  {
    var all := [h] + rest;
    assert forall i :: 0 < i < |all| ==> all[i] == rest[i - 1] && rest[i - 1] in rest;
  }

  // ---------- Exactly when a debt is remembered ----------

  /** One touch that is not of this key. */
  lemma ApplyOther(b: Budget, lru: seq<History>, t: Touch, key: HistoryKey)
    requires OneEach(lru) && !Touching(t, key)
    ensures Recall(lru, key) == None ==> Recall(Apply(b, lru, t), key) == None
    ensures Recall(lru, key).Some? ==>
              var keys := ApplyKeys(Ahead(lru, key), t);
              if |keys| < HistoryBound(b) || !t.Kept? then Recall(Apply(b, lru, t), key) == Recall(lru, key) && Ahead(Apply(b, lru, t), key) == keys
              else Recall(Apply(b, lru, t), key) == None
  {
    hide Forget, ForgetCommunity, HistoryBound;
    match t
    case Gone(k) => ForgetOther(lru, key, k);
    case GoneAll(c) => ForgetOthers(lru, key, c);
    case Kept(h) =>
      ForgetOther(lru, key, h.key);
      ForgetKeeps(lru, h.key);
      FrontDistinct(h, Forget(lru, h.key));
      FrontRecall(h, Forget(lru, h.key), key);
      var all := [h] + Forget(lru, h.key);
      assert Recall(lru, key).Some? ==> {h.key} + (Ahead(lru, key) - {h.key}) == Ahead(lru, key) + {h.key};
      AheadCounts(all, key);
      if |all| > HistoryBound(b) {
        if Recall(lru, key).Some? { CutKeeps(all, key, HistoryBound(b)); } else { CutForgets(all, key, HistoryBound(b)); }
      }
  }

  lemma FrontRecall(h: History, rest: seq<History>, key: HistoryKey)
    requires h.key != key
    ensures Recall([h] + rest, key) == Recall(rest, key) && Ahead([h] + rest, key) == {h.key} + Ahead(rest, key)
  {
    assert ([h] + rest)[1..] == rest;
  }

  lemma {:induction false} AheadCounts(lru: seq<History>, key: HistoryKey)
    requires OneEach(lru)
    ensures Recall(lru, key).Some? ==> |Ahead(lru, key)| < |lru|
  {
    if lru != [] && lru[0].key != key {
      AheadCounts(lru[1..], key);
      HeadNotAhead(lru, key);
    }
  }

  /** After touch `i` kept `h`, by touch `n` the list remembers `h` unless it was crowded out. */
  lemma {:induction false} RememberedUpTo(b: Budget, touches: seq<Touch>, i: nat, n: nat)
    requires i < n <= |touches| && touches[i].Kept? && Untouched(touches, i + 1, touches[i].h.key)
    ensures var h, lru := touches[i].h, Replay(b, touches[..n]);
            if CrowdedBy(b, touches, i + 1, n) then Recall(lru, h.key) == None
            else Recall(lru, h.key) == Some(h) && Ahead(lru, h.key) == Newer(touches, i + 1, n)
    decreases n
  {
    hide Apply, ApplyKeys, HistoryBound;
    var h := touches[i].h;
    ReplayNext(b, touches, n - 1);
    if n == i + 1 {
      KeptFirst(b, Replay(b, touches[..i]), h);
      CrowdedStart(b, touches, i + 1);
    } else {
      RememberedUpTo(b, touches, i, n - 1);
      CrowdedNext(b, touches, i + 1, n);
      ReplayDistinct(b, touches[..n - 1]);
      ApplyOther(b, Replay(b, touches[..n - 1]), touches[n - 1], h.key);
      if !CrowdedBy(b, touches, i + 1, n - 1) && !touches[n - 1].Kept? { FewerKeys(Newer(touches, i + 1, n - 1), touches[n - 1]); }
    }
  }

  lemma ReplayNext(b: Budget, touches: seq<Touch>, n: nat)
    requires n < |touches|
    ensures Replay(b, touches[..n + 1]) == Apply(b, Replay(b, touches[..n]), touches[n])
  {
    hide Apply;
    assert touches[..n + 1][..n] == touches[..n];
  }

  lemma KeptFirst(b: Budget, lru: seq<History>, h: History)
    ensures Recall(Apply(b, lru, Kept(h)), h.key) == Some(h) && Ahead(Apply(b, lru, Kept(h)), h.key) == {}
  {
    hide Forget;
    var all := [h] + Forget(lru, h.key);
    assert all[0] == h && HistoryBound(b) >= 64;
    assert |all| > HistoryBound(b) ==> all[..HistoryBound(b)][0] == h;
  }

  lemma CrowdedStart(b: Budget, touches: seq<Touch>, since: nat)
    requires since <= |touches|
    ensures !CrowdedBy(b, touches, since, since)
  {
  }

  lemma CrowdedNext(b: Budget, touches: seq<Touch>, since: nat, n: nat)
    requires since < n <= |touches|
    ensures CrowdedBy(b, touches, since, n) <==> CrowdedBy(b, touches, since, n - 1) || |Newer(touches, since, n)| >= HistoryBound(b)
    ensures !CrowdedBy(b, touches, since, n - 1) ==> |Newer(touches, since, n - 1)| < HistoryBound(b)
  {
    hide HistoryBound, Newer;
  }

  lemma FewerKeys(keys: set<HistoryKey>, t: Touch)
    requires !t.Kept?
    ensures |ApplyKeys(keys, t)| <= |keys|
  {
    NoMore(ApplyKeys(keys, t), keys);
  }

  lemma {:induction false} NoMore(a: set<HistoryKey>, b: set<HistoryKey>)
    requires a <= b
    ensures |a| <= |b|
    decreases |a|
  {
    if a != {} {
      var x :| x in a;
      NoMore(a - {x}, b - {x});
    }
  }

  /** A debt kept and untouched since is remembered exactly unless it was crowded out. */
  lemma RememberedIff(b: Budget, touches: seq<Touch>, i: nat)
    requires i < |touches| && touches[i].Kept? && Untouched(touches, i + 1, touches[i].h.key)
    ensures Recall(Replay(b, touches), touches[i].h.key) == if Crowded(b, touches, i + 1) then None else Some(touches[i].h)
  {
    RememberedUpTo(b, touches, i, |touches|);
    assert touches[..|touches|] == touches;
  }

  function Leavers(touches: seq<Touch>, since: nat): set<HistoryKey> {
    set j | since <= j < |touches| && touches[j].Kept? :: touches[j].h.key
  }

  lemma {:induction false} NewerAreLeavers(touches: seq<Touch>, since: nat, n: nat)
    requires since <= n <= |touches|
    ensures Newer(touches, since, n) <= Leavers(touches, since)
    decreases n
  {
    if n > since { NewerAreLeavers(touches, since, n - 1); }
  }

  /** In particular fewer leavers than the list holds crowd nobody out. */
  lemma FewLeaversCrowdNobody(b: Budget, touches: seq<Touch>, since: nat)
    requires since <= |touches| && |Leavers(touches, since)| < HistoryBound(b)
    ensures !Crowded(b, touches, since)
  {
    hide Newer, Leavers, HistoryBound;
    forall m | since <= m <= |touches| ensures |Newer(touches, since, m)| < HistoryBound(b) {
      NewerAreLeavers(touches, since, m);
      NoMore(Newer(touches, since, m), Leavers(touches, since));
    }
  }

  /** And one whose holder returned, or whose community was deleted, is not remembered. */
  lemma {:induction false} GoneIsForgotten(b: Budget, touches: seq<Touch>, i: nat, key: HistoryKey)
    requires i < |touches| && Touching(touches[i], key) && !touches[i].Kept? && Untouched(touches, i + 1, key)
    ensures Recall(Replay(b, touches), key) == None
    decreases |touches|
  {
    hide HistoryBound, Forget, ForgetCommunity;
    var n := |touches| - 1;
    var before := Replay(b, touches[..n]);
    if i == n {
      ForgetsKey(before, key);
      ForgetsKeyWith(before, key);
    } else {
      GoneIsForgotten(b, touches[..n], i, key);
      ReplayDistinct(b, touches[..n]);
      ApplyOther(b, before, touches[n], key);
    }
  }

  lemma {:induction false} ForgetsKey(lru: seq<History>, key: HistoryKey)
    ensures Recall(Forget(lru, key), key) == None
  {
    if lru != [] { ForgetsKey(lru[1..], key); }
  }

  lemma {:induction false} ForgetsKeyWith(lru: seq<History>, key: HistoryKey)
    ensures Recall(ForgetCommunity(lru, key.community), key) == None
  {
    if lru != [] { ForgetsKeyWith(lru[1..], key); }
  }
}
