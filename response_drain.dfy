/** The response map, keyed by request handle, and what draining its asynchronous
    entries in ascending handle order means. */
module ResponseDrain {
  import opened Types

  /** Arrived responses: request handle to (response, async flag). */
  type Responses = map<UInt32, (SupportedMessage, bool)>

  /** Every response is stored under the request handle it carries. */
  ghost predicate KeyedByOwnHandle(m: Responses) {
    forall h :: h in m ==> m[h].0.requestHandle == h
  }

  /** The handles whose stored response is flagged async. */
  function AsyncHandles(m: Responses): (s: set<UInt32>)
    ensures forall h :: h in s <==> h in m && m[h].1
  {
    set h | h in m && m[h].1
  }

  ghost predicate Ascending(s: seq<UInt32>) {
    forall i, j :: 0 <= i < j < |s| ==> s[i] <= s[j]
  }

  ghost predicate StrictlyAscending(s: seq<UInt32>) {
    forall i, j :: 0 <= i < j < |s| ==> s[i] < s[j]
  }

  lemma AscendingCons(h: UInt32, t: seq<UInt32>)
    requires Ascending(t) && (t != [] ==> h <= t[0])
    ensures Ascending([h] + t)
  {
    var r := [h] + t;
    forall i, j | 0 <= i < j < |r| ensures r[i] <= r[j] {
      if i == 0 {
        assert h <= t[0] <= t[j - 1];
      } else {
        assert r[i] == t[i - 1] && r[j] == t[j - 1];
      }
    }
  }

  lemma AscendingTail(s: seq<UInt32>)
    requires Ascending(s) && s != []
    ensures Ascending(s[1..]) && (|s| > 1 ==> s[0] <= s[1])
  {
    forall i, j | 0 <= i < j < |s| - 1 ensures s[1..][i] <= s[1..][j] {
      assert s[1..][i] == s[i + 1] && s[1..][j] == s[j + 1];
    }
  }

  /** Inserts `x` into an ascending sequence. */
  function Insert(s: seq<UInt32>, x: UInt32): (r: seq<UInt32>)
    requires Ascending(s)
    ensures Ascending(r)
    ensures multiset(r) == multiset(s) + multiset{x}
    ensures r != [] && (r[0] == x || (s != [] && r[0] == s[0]))
    decreases |s|
  {
    if s == [] then [x]
    else if x <= s[0] then
      AscendingCons(x, s);
      [x] + s
    else
      AscendingTail(s);
      var tail := Insert(s[1..], x);
      AscendingCons(s[0], tail);
      assert s == [s[0]] + s[1..];
      [s[0]] + tail
  }

  /** `sort()` on a vector of handles: an ascending permutation of it. */
  function Sort(s: seq<UInt32>): (r: seq<UInt32>)
    ensures Ascending(r)
    ensures multiset(r) == multiset(s)
    decreases |s|
  {
    if s == [] then []
    else
      assert s == s[..|s| - 1] + [s[|s| - 1]];
      Insert(Sort(s[..|s| - 1]), s[|s| - 1])
  }

  /** The smallest handle of a non-empty set. */
  ghost function Min(s: set<UInt32>): (m: UInt32)
    requires s != {}
    ensures m in s && forall y :: y in s ==> m <= y
    decreases s
  {
    var x :| x in s;
    if s == {x} then
      assert forall y :: y in s ==> y == x;
      x
    else
      var rest := Min(s - {x});
      assert forall y :: y in s ==> y == x || y in s - {x};
      if x < rest then x else rest
  }

  /** The handles of `s`, smallest first. */
  ghost function SortedSet(s: set<UInt32>): (r: seq<UInt32>)
    ensures StrictlyAscending(r)
    ensures forall h :: h in r <==> h in s
    ensures |r| == |s|
    decreases s
  {
    if s == {} then []
    else
      var m := Min(s);
      [m] + SortedSet(s - {m})
  }

  lemma MultisetOfSetMinus(s: set<UInt32>, m: UInt32)
    requires m in s
    ensures multiset(s - {m}) == multiset(s) - multiset{m}
  {
    forall x ensures multiset(s - {m})[x] == (multiset(s) - multiset{m})[x] {
    }
  }

  /** An ascending sequence holding each element of `s` exactly once is `SortedSet(s)`:
      sorting the collected handles gives the same order whichever order they were collected in. */
  lemma {:induction false} SortedSetUnique(r: seq<UInt32>, s: set<UInt32>)
    requires Ascending(r) && multiset(r) == multiset(s)
    ensures r == SortedSet(s)
    decreases |r|
  {
    if r != [] {
      assert r[0] in multiset(r);
      assert r[0] in s;
      forall y | y in s ensures r[0] <= y {
        assert y in multiset(r);
        var k :| 0 <= k < |r| && r[k] == y;
      }
      var m := Min(s);
      assert m == r[0];
      assert r == [r[0]] + r[1..];
      MultisetOfSetMinus(s, m);
      assert multiset(r[1..]) == multiset(s - {m});
      SortedSetUnique(r[1..], s - {m});
    }
  }

  /** The messages stored under `hs`, in the order of `hs`. */
  function MessagesAt(m: Responses, hs: seq<UInt32>): (r: seq<SupportedMessage>)
    requires forall i :: 0 <= i < |hs| ==> hs[i] in m
    ensures |r| == |hs|
    ensures forall i :: 0 <= i < |hs| ==> r[i] == m[hs[i]].0
  {
    seq(|hs|, i requires 0 <= i < |hs| => m[hs[i]].0)
  }

  /** What draining the async responses of `m` returns: each async response,
      smallest handle first. */
  ghost function AsyncDrain(m: Responses): (r: seq<SupportedMessage>) {
    MessagesAt(m, SortedSet(AsyncHandles(m)))
  }

  /** The async handles of `m`, each once, in whatever order the map is visited. */
  method CollectAsyncHandles(m: Responses) returns (hs: seq<UInt32>)
    ensures multiset(hs) == multiset(AsyncHandles(m))
  {
    hs := [];
    var unvisited := m.Keys;
    while unvisited != {}
      invariant unvisited <= m.Keys
      invariant multiset(hs) == multiset(AsyncHandles(m) - unvisited)
      decreases unvisited
    {
      var h :| h in unvisited;
      if m[h].1 {
        assert AsyncHandles(m) - (unvisited - {h}) == (AsyncHandles(m) - unvisited) + {h};
        hs := hs + [h];
      } else {
        assert AsyncHandles(m) - (unvisited - {h}) == AsyncHandles(m) - unvisited;
      }
      unvisited := unvisited - {h};
    }
  }

  /** Removes the entries for `hs` from `m` one after the other, returning their messages in
      the order of `hs`. Every handle must be present when its turn comes, so each is in `m`
      and none repeats. */
  method TakeInOrder(m: Responses, hs: seq<UInt32>) returns (msgs: seq<SupportedMessage>, rest: Responses)
    requires forall i :: 0 <= i < |hs| ==> hs[i] in m
    requires forall i, j :: 0 <= i < j < |hs| ==> hs[i] != hs[j]
    ensures msgs == MessagesAt(m, hs)
    ensures forall h :: h in rest <==> h in m && h !in hs
    ensures forall h :: h in rest ==> rest[h] == m[h]
  {
    ghost var taken: set<UInt32> := {};
    rest := m;
    msgs := [];
    var i := 0;
    while i < |hs|
      invariant 0 <= i <= |hs|
      invariant forall h :: h in taken <==> h in hs[..i]
      invariant rest == m - taken
      invariant forall j :: i <= j < |hs| ==> hs[j] in rest
      invariant |msgs| == i
      invariant forall j :: 0 <= j < i ==> msgs[j] == m[hs[j]].0
    {
      var h := hs[i];
      var entry := rest[h];
      rest := rest - {h};
      taken := taken + {h};
      msgs := msgs + [entry.0];
      i := i + 1;
    }
  }

  /** Taking the messages under any ascending arrangement of the async handles is the drain. */
  lemma DrainBySortedHandles(m: Responses, hs: seq<UInt32>)
    requires Ascending(hs) && multiset(hs) == multiset(AsyncHandles(m))
    ensures forall i :: 0 <= i < |hs| ==> hs[i] in m
    ensures forall i, j :: 0 <= i < j < |hs| ==> hs[i] != hs[j]
    ensures forall h :: h in hs <==> h in m && m[h].1
    ensures AsyncDrain(m) == MessagesAt(m, hs)
  {
    SortedSetUnique(hs, AsyncHandles(m));
  }

  /** What is left after removing the async handles is `m` without its async entries. */
  lemma RestIsSync(m: Responses, hs: seq<UInt32>, rest: Responses)
    requires forall h :: h in hs <==> h in m && m[h].1
    requires forall h :: h in rest <==> h in m && h !in hs
    requires forall h :: h in rest ==> rest[h] == m[h]
    ensures rest == m - AsyncHandles(m)
  {
  }

  /** The drain returns exactly the async responses, each once, in strictly ascending handle order. */
  lemma AsyncDrainContents(m: Responses)
    requires KeyedByOwnHandle(m)
    ensures |AsyncDrain(m)| == |AsyncHandles(m)|
    ensures forall i :: 0 <= i < |AsyncDrain(m)| ==>
              var msg := AsyncDrain(m)[i]; msg.requestHandle in m && m[msg.requestHandle] == (msg, true)
    ensures forall h :: h in m && m[h].1 ==> m[h].0 in AsyncDrain(m)
    ensures forall i, j :: 0 <= i < j < |AsyncDrain(m)| ==>
              AsyncDrain(m)[i].requestHandle < AsyncDrain(m)[j].requestHandle
  {
    var hs := SortedSet(AsyncHandles(m));
    var drained := AsyncDrain(m);
    assert drained == MessagesAt(m, hs);
    forall h | h in m && m[h].1 ensures m[h].0 in drained {
      var k :| 0 <= k < |hs| && hs[k] == h;
      assert drained[k] == m[h].0;
    }
    forall i | 0 <= i < |drained|
      ensures drained[i].requestHandle == hs[i] && m[hs[i]] == (drained[i], true)
    {
    }
  }

  /** Draining leaves the sync responses as they were and takes every async one, so a
      second drain with nothing deposited in between returns nothing. */
  lemma DrainLeavesSyncOnly(m: Responses)
    ensures forall h :: h in m && !m[h].1 ==> h in m - AsyncHandles(m) && (m - AsyncHandles(m))[h] == m[h]
    ensures forall h :: h in m - AsyncHandles(m) ==> h in m && !m[h].1
    ensures AsyncDrain(m - AsyncHandles(m)) == []
  {
    var rest := m - AsyncHandles(m);
    assert AsyncHandles(rest) == {};
  }

  /** A strictly ascending sequence holds each of its elements once. */
  lemma {:induction false} StrictlyAscendingOnce(hs: seq<UInt32>)
    requires StrictlyAscending(hs)
    ensures forall x :: multiset(hs)[x] == if x in hs then 1 else 0
    decreases |hs|
  {
    if hs != [] {
      assert hs == [hs[0]] + hs[1..];
      StrictlyAscendingOnce(hs[1..]);
    }
  }

  /** Taking the messages under the async handles listed in strictly ascending order is the drain. */
  lemma DrainByListedHandles(m: Responses, hs: seq<UInt32>)
    requires StrictlyAscending(hs)
    requires forall h :: h in hs <==> h in m && m[h].1
    ensures forall i :: 0 <= i < |hs| ==> hs[i] in m
    ensures AsyncDrain(m) == MessagesAt(m, hs)
  {
    StrictlyAscendingOnce(hs);
    assert multiset(hs) == multiset(AsyncHandles(m));
    SortedSetUnique(hs, AsyncHandles(m));
  }

  /** Async responses for handles 5, 2, 9 and 1 and a sync one for 7, deposited in that order,
      drain as the responses for 1, 2, 5 and 9. */
  lemma DrainOrderExample(m: Responses, r5: SupportedMessage, r2: SupportedMessage,
                          r9: SupportedMessage, r1: SupportedMessage, r7: SupportedMessage)
    requires r5.requestHandle == 5 && r2.requestHandle == 2 && r9.requestHandle == 9
    requires r1.requestHandle == 1 && r7.requestHandle == 7
    requires m == map[5 := (r5, true), 2 := (r2, true), 9 := (r9, true), 1 := (r1, true), 7 := (r7, false)]
    ensures AsyncDrain(m) == [r1, r2, r5, r9]
  {
    var hs: seq<UInt32> := [1, 2, 5, 9];
    assert MessagesAt(m, hs) == [r1, r2, r5, r9] by {
      var drained := MessagesAt(m, hs);
      assert m[1].0 == r1 && m[2].0 == r2 && m[5].0 == r5 && m[9].0 == r9;
      assert drained[0] == r1 && drained[1] == r2 && drained[2] == r5 && drained[3] == r9;
    }
    DrainByListedHandles(m, hs);
  }
}
