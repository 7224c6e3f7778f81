/** The cache of open read-only day files (archiveCache in internal/store/archive.go): least recently used goes first. */
module HandleCache {
  import opened Prelude

  const HANDLE_CAP: nat := 4

  function Without(s: seq<string>, p: string): seq<string> {
    if s == [] then []
    else if s[|s| - 1] == p then Without(s[..|s| - 1], p)
    else Without(s[..|s| - 1], p) + [s[|s| - 1]]
  }

  predicate NoRepeats(s: seq<string>) {
    forall i, j :: 0 <= i < j < |s| ==> s[i] != s[j]
  }

  function Last(s: seq<string>, n: nat): seq<string> {
    if |s| <= n then s else s[|s| - n..]
  }

  /** The order after one use of `p`, when its file is there. */
  function Used(order: seq<string>, p: string): seq<string> {
    if p in order then Without(order, p) + [p] else Last(order, HANDLE_CAP - 1) + [p]
  }

  /** The distinct paths of a history, by their last use. */
  function Recency(history: seq<string>): seq<string> {
    if history == [] then []
    else
      var p := history[|history| - 1];
      Without(Recency(history[..|history| - 1]), p) + [p]
  }

  function After(history: seq<string>): seq<string> {
    if history == [] then [] else Used(After(history[..|history| - 1]), history[|history| - 1])
  }

  lemma {:induction false} WithoutAt(s: seq<string>, i: nat)
    requires NoRepeats(s) && i < |s|
    ensures Without(s, s[i]) == s[..i] + s[i + 1..]
    decreases |s|
  {
    var init := s[..|s| - 1];
    if i == |s| - 1 {
      WithoutAbsent(init, s[i]);
      assert s[..i] + s[i + 1..] == init;
    } else {
      WithoutAt(init, i);
      assert init[..i] == s[..i] && init[i + 1..] + [s[|s| - 1]] == s[i + 1..];
      assert (s[..i] + init[i + 1..]) + [s[|s| - 1]] == s[..i] + s[i + 1..];
    }
  }

  lemma {:induction false} WithoutAbsent(s: seq<string>, p: string)
    requires p !in s
    ensures Without(s, p) == s
  {
    if s != [] {
      WithoutAbsent(s[..|s| - 1], p);
    }
  }

  /** Without changes nothing but the one path's place. */
  lemma {:induction false} WithoutSplits(s: seq<string>, p: string, q: string)
    ensures q in Without(s, p) <==> q in s && q != p
    ensures |Without(s, p)| <= |s|
  {
    if s != [] {
      WithoutSplits(s[..|s| - 1], p, q);
      assert s == s[..|s| - 1] + [s[|s| - 1]];
    }
  }

  lemma {:induction false} RecentKeeps(s: seq<string>, p: string)
    requires NoRepeats(s)
    ensures NoRepeats(Without(s, p)) && NoRepeats(Without(s, p) + [p])
    ensures forall q :: q in Without(s, p) <==> q in s && q != p
    ensures |Without(s, p)| == if p in s then |s| - 1 else |s|
  {
    forall q
      ensures q in Without(s, p) <==> q in s && q != p
    {
      WithoutSplits(s, p, q);
    }
    if p in s {
      var i :| 0 <= i < |s| && s[i] == p;
      WithoutAt(s, i);
    } else {
      WithoutAbsent(s, p);
    }
  }

  lemma TailWhenCached(r: seq<string>, p: string, i: nat, k: nat)
    requires NoRepeats(r) && k <= i < |r| && r[i] == p
    ensures |Without(r, p)| == |r| - 1
    ensures Without(r[k..], p) + [p] == (Without(r, p) + [p])[k..]
  {
    WithoutAt(r, i);
    WithoutAt(r[k..], i - k);
    DropParts(r, i, k);
  }

  lemma DropParts(r: seq<string>, i: nat, k: nat)
    requires k <= i < |r|
    ensures r[k..][..i - k] + r[k..][i - k + 1..] == (r[..i] + r[i + 1..])[k..]
  {
  }

  lemma TailWhenForgotten(r: seq<string>, p: string, i: nat, k: nat)
    requires NoRepeats(r) && i < k < |r| && r[i] == p
    ensures |Without(r, p)| == |r| - 1
    ensures p !in r[k..] && (Without(r, p) + [p])[k..] == r[k + 1..] + [p]
  {
    WithoutAt(r, i);
    assert (r[..i] + r[i + 1..])[k..] == r[k + 1..];
  }

  /** Using a path in the whole recency list and in its tail leaves the same tail. */
  lemma {:induction false} TailOfRecency(r: seq<string>, p: string)
    requires NoRepeats(r)
    ensures Used(Last(r, HANDLE_CAP), p) == Last(Without(r, p) + [p], HANDLE_CAP)
  {
    var t := Last(r, HANDLE_CAP);
    var k := |r| - |t|;
    assert t == r[k..];
    RecentKeeps(r, p);
    if p in r {
      var i :| 0 <= i < |r| && r[i] == p;
      if i >= k {
        assert t[i - k] == p;
        TailWhenCached(r, p, i, k);
      } else {
        TailWhenForgotten(r, p, i, k);
        assert r[k..][1..] == r[k + 1..];
      }
    } else {
      WithoutAbsent(r, p);
      TailWhenNew(r, p);
    }
  }

  lemma TailWhenNew(r: seq<string>, p: string)
    ensures Last(Last(r, HANDLE_CAP), HANDLE_CAP - 1) + [p] == Last(r + [p], HANDLE_CAP)
    ensures p !in r ==> p !in Last(r, HANDLE_CAP)
  {
  }

  lemma {:induction false} RecencyDistinct(history: seq<string>)
    ensures NoRepeats(Recency(history))
  {
    if history != [] {
      RecencyDistinct(history[..|history| - 1]);
      RecentKeeps(Recency(history[..|history| - 1]), history[|history| - 1]);
    }
  }

  /** The cache always holds exactly the last few distinct paths used, in the order of their last use. */
  lemma {:induction false} HoldsMostRecent(history: seq<string>)
    ensures After(history) == Last(Recency(history), HANDLE_CAP)
  {
    if history != [] {
      var init, p := history[..|history| - 1], history[|history| - 1];
      HoldsMostRecent(init);
      RecencyDistinct(init);
      TailOfRecency(Recency(init), p);
    }
  }

  /** Every handle ever opened is either cached, under one path, or closed. */
  ghost predicate Tracked(dbs: map<string, nat>, opens: nat, closed: set<nat>) {
    && (forall p :: p in dbs ==> dbs[p] < opens && dbs[p] !in closed)
    && (forall p, q :: p in dbs && q in dbs && dbs[p] == dbs[q] ==> p == q)
    && (forall h :: h in closed ==> h < opens)
    && (forall h :: 0 <= h < opens && h !in closed ==> exists p :: p in dbs && dbs[p] == h)
  }

  lemma OpenTracks(dbs: map<string, nat>, opens: nat, closed: set<nat>, path: string)
    requires Tracked(dbs, opens, closed) && path !in dbs
    ensures Tracked(dbs[path := opens], opens + 1, closed)
  {
    var dbs' := dbs[path := opens];
    forall h | 0 <= h < opens + 1 && h !in closed
      ensures exists p :: p in dbs' && dbs'[p] == h
    {
      if h == opens {
        assert dbs'[path] == h;
      } else {
        var p :| p in dbs && dbs[p] == h;
        assert dbs'[p] == h;
      }
    }
  }

  lemma CloseTracks(dbs: map<string, nat>, opens: nat, closed: set<nat>, path: string)
    requires Tracked(dbs, opens, closed) && path in dbs
    ensures Tracked(dbs - {path}, opens, closed + {dbs[path]})
  {
    var dbs' := dbs - {path};
    forall h | 0 <= h < opens && h !in closed + {dbs[path]}
      ensures exists p :: p in dbs' && dbs'[p] == h
    {
      var p :| p in dbs && dbs[p] == h;
      assert p in dbs';
    }
  }

  class ArchiveCache {
    /** Handles are numbered as they are opened. */
    var dbs: map<string, nat>
    var order: seq<string>
    var opens: nat
    ghost var closed: set<nat>

    ghost predicate Valid()
      reads this
    {
      && NoRepeats(order) && |order| <= HANDLE_CAP && (forall p :: p in dbs <==> p in order)
      && Tracked(dbs, opens, closed)
    }

    constructor ()
      ensures Valid() && order == [] && opens == 0
    {
      dbs, order, opens, closed := map[], [], 0, {};
    }

    /** The handle for a path, opened if its file is there; None is errDayMissing. */
    method With(path: string, onDisk: bool) returns (handle: Option<nat>)
      requires Valid()
      modifies this
      ensures Valid()
      ensures handle.None? <==> path !in old(order) && !onDisk
      ensures handle.None? ==> order == old(order) && dbs == old(dbs) && opens == old(opens)
      ensures handle.Some? ==> path in dbs && dbs[path] == handle.value && handle.value !in closed
      ensures handle.Some? ==> order == Used(old(order), path)
      ensures handle.Some? ==> opens == old(opens) + if path in old(order) then 0 else 1
    {
      if path in dbs {
        Touch(path);
        return Some(dbs[path]);
      }
      if !onDisk {
        return None;
      }
      MakeRoom();
      OpenTracks(dbs, opens, closed, path);
      dbs := dbs[path := opens];
      handle := Some(opens);
      opens := opens + 1;
      order := order + [path];
    }

    /** Closes the least recently used handles until one more fits. */
    method MakeRoom()
      requires Valid()
      modifies this
      ensures Valid() && order == Last(old(order), HANDLE_CAP - 1) && opens == old(opens)
    {
      ghost var start := order;
      while |order| >= HANDLE_CAP
        invariant Valid() && opens == old(opens)
        invariant order == start || (|start| == HANDLE_CAP && order == start[1..])
        decreases |order|
      {
        WithoutAt(order, 0);
        assert order[..0] + order[1..] == order[1..];
        CloseLocked(order[0]);
      }
    }

    method Touch(path: string)
      requires Valid() && path in order
      modifies this`order
      ensures Valid() && order == Without(old(order), path) + [path]
    {
      RecentKeeps(order, path);
      var i := 0;
      while order[i] != path
        invariant i < |order| && forall k :: 0 <= k < i ==> order[k] != path
        decreases |order| - i
      {
        i := i + 1;
      }
      WithoutAt(order, i);
      order := order[..i] + order[i + 1..] + [path];
    }

    method CloseLocked(path: string)
      requires Valid()
      modifies this
      ensures Valid() && order == Without(old(order), path) && opens == old(opens)
      ensures closed == old(closed) + if path in old(dbs) then {old(dbs)[path]} else {}
      ensures forall p :: p in dbs <==> p in old(dbs) && p != path
      ensures forall p :: p in dbs ==> dbs[p] == old(dbs)[p]
    {
      RecentKeeps(order, path);
      if path in dbs {
        CloseTracks(dbs, opens, closed, path);
        closed := closed + {dbs[path]};
      }
      dbs := dbs - {path};
      order := Without(order, path);
    }

    method CloseAll()
      requires Valid()
      modifies this
      ensures Valid() && order == [] && forall h :: 0 <= h < opens ==> h in closed
    {
      while |order| > 0
        invariant Valid()
        decreases |order|
      {
        WithoutAt(order, 0);
        CloseLocked(order[0]);
      }
      assert forall p :: p !in dbs;
    }
  }
}
