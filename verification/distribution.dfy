/**
 * The distribution script: the round actions, shuffled, are handed out in
 * blocks of up to five per user with one index moving through the list.
 * The shuffle is a parameter: the array arrives already in shuffled order.
 */
module Distribution {
  import opened Wrappers
  import opened Schema
  import Rounds
  import opened Store

  /** The most actions one user is given. */
  const PerUser: nat := 5

  /** Position of the first action that already has an owner, or the length when none has. */
  function FirstClaimed(a: seq<RoundAction>): (f: nat)
    ensures f <= |a|
    ensures forall p :: 0 <= p < f ==> a[p].userId.None?
    ensures f < |a| ==> a[f].userId.Some?
    decreases |a|
  {
    if a == [] then 0
    else if a[0].userId.Some? then 0
    else 1 + FirstClaimed(a[1..])
  }

  /** Where the moving index stands once `u` users have been served. */
  function Reach(u: nat, f: nat): (r: nat)
    ensures r <= f && r <= PerUser * u
    ensures r == f || r == PerUser * u
  {
    if PerUser * u <= f then PerUser * u else f
  }

  /** The ids of a list of actions: the `in` list of the update. */
  function IdSet(xs: seq<RoundAction>): set<Id>
    decreases |xs|
  {
    if xs == [] then {} else IdSet(xs[..|xs| - 1]) + {xs[|xs| - 1].id}
  }

  /**
   * The in-memory list once every user has been served: the action at
   * position p, below where the index ends, now belongs to user p / 5.
   */
  function Assigned(a: seq<RoundAction>, users: seq<User>): (r: seq<RoundAction>)
    ensures |r| == |a|
  {
    var f := FirstClaimed(a);
    seq(|a|, p requires 0 <= p < |a| =>
          if p < Reach(|users|, f) then a[p].(userId := Some(users[p / PerUser].id)) else a[p])
  }

  /** The ids user `u` collects: those of the positions the index passes while serving that user. */
  function Block(a: seq<RoundAction>, u: nat): set<Id> {
    var f := FirstClaimed(a);
    IdSet(a[Reach(u, f)..Reach(u + 1, f)])
  }

  /** No two listed actions share an id. */
  predicate DistinctIds(xs: seq<RoundAction>) {
    forall i, j :: 0 <= i < j < |xs| ==> xs[i].id != xs[j].id
  }

  /** The table after one `updateMany` per user, in user order. */
  function Distribute(s: State, a: seq<RoundAction>, users: seq<User>): (r: State)
    requires WellFormed(s)
    ensures WellFormed(r)
    decreases |users|
  {
    if users == [] then s
    else
      var n := |users| - 1;
      Rounds.AssignActions(Distribute(s, a, users[..n]), Block(a, n), users[n].id)
  }

  /** The positions below `upTo` belong to the user their block was handed to; the rest are as listed. */
  ghost predicate HandedOut(cur: seq<RoundAction>, a: seq<RoundAction>, users: seq<User>, upTo: nat)
    requires |cur| == |a| && upTo <= PerUser * |users|
  {
    forall p :: 0 <= p < |a| ==>
      cur[p] == if p < upTo then a[p].(userId := Some(users[p / PerUser].id)) else a[p]
  }

  /** A position inside user u's window of five is owned by user u. */
  lemma Owner(p: nat, u: nat)
    requires PerUser * u <= p < PerUser * u + PerUser
    ensures p / PerUser == u
  {
  }

  /** Taking the action at `idx` extends the ids taken from `start` by that position's id. */
  lemma IdSetExtend(taken: seq<RoundAction>, a: seq<RoundAction>, start: nat, idx: nat, action: RoundAction)
    requires start <= idx < |a| && action.id == a[idx].id
    requires IdSet(taken) == IdSet(a[start..idx])
    ensures IdSet(taken + [action]) == IdSet(a[start..idx + 1])
  {
    assert a[start..idx + 1][..idx - start] == a[start..idx];
    assert (taken + [action])[..|taken|] == taken;
  }

  /**
   * The inner loop for user `u`: up to five passes, each taking the action
   * under the index when it has no owner yet and moving the index past it.
   */
  method TakeBlock(shuffled: array<RoundAction>, ghost a: seq<RoundAction>, users: seq<User>, u: nat, start: nat)
    returns (actionIndex: nat, userActions: seq<RoundAction>)
    requires |a| == shuffled.Length && u < |users| && start == Reach(u, FirstClaimed(a))
    requires HandedOut(shuffled[..], a, users, start)
    modifies shuffled
    ensures actionIndex == Reach(u + 1, FirstClaimed(a))
    ensures HandedOut(shuffled[..], a, users, actionIndex)
    ensures IdSet(userActions) == IdSet(a[start..actionIndex])
  {
    ghost var f := FirstClaimed(a);
    actionIndex := start;
    userActions := [];
    var i := 0;
    while i < PerUser && actionIndex < shuffled.Length
      invariant 0 <= i <= PerUser
      invariant start <= actionIndex <= f
      invariant actionIndex == PerUser * u + i || (actionIndex == f && f <= PerUser * u + i)
      invariant HandedOut(shuffled[..], a, users, actionIndex)
      invariant IdSet(userActions) == IdSet(a[start..actionIndex])
      decreases PerUser - i
    {
      var action := shuffled[actionIndex];
      if action.userId.None? {
        Owner(actionIndex, u);
        action := action.(userId := Some(users[u].id));
        shuffled[actionIndex] := action;
        IdSetExtend(userActions, a, start, actionIndex, action);
        userActions := userActions + [action];
        actionIndex := actionIndex + 1;
      }
      i := i + 1;
    }
  }

  /**
   * `assignRoundActionsToUsers` on the listing of every round action, shuffled:
   * the array holds the rows of the table in some order.
   */
  method AssignRoundActionsToUsers(db: Db, shuffled: array<RoundAction>, users: seq<User>)
    requires db.Valid() && multiset(shuffled[..]) == multiset(db.actions)
    modifies db, shuffled
    ensures db.Valid()
    ensures shuffled[..] == Assigned(old(shuffled[..]), users)
    ensures db.View() == Distribute(old(db.View()), old(shuffled[..]), users)
    ensures |db.actions| == |old(db.actions)|
    ensures forall i :: 0 <= i < |db.actions| && old(db.actions)[i].userId.Some? ==> db.actions[i] == old(db.actions)[i]
  {
    ghost var a := shuffled[..];
    ghost var s0 := db.View();
    ghost var f := FirstClaimed(a);
    var actionIndex := 0;
    for u := 0 to |users|
      invariant db.Valid() && db.View() == Distribute(s0, a, users[..u])
      invariant actionIndex == Reach(u, f)
      invariant HandedOut(shuffled[..], a, users, actionIndex)
    {
      var userActions;
      ghost var start := actionIndex;
      actionIndex, userActions := TakeBlock(shuffled, a, users, u, actionIndex);
      assert users[..u + 1][..u] == users[..u] && users[..u + 1][u] == users[u];
      db.AssignActions(IdSet(userActions), users[u].id);
    }
    assert users[..|users|] == users;
    assert shuffled[..] == Assigned(a, users);
    DistributeTable(s0, a, users);
  }

  // ---------------------------------------------------------------- properties

  /** An id is in the set exactly when some listed action carries it. */
  lemma {:induction false} IdSetMembers(xs: seq<RoundAction>, x: Id)
    ensures x in IdSet(xs) <==> exists k :: 0 <= k < |xs| && xs[k].id == x
    decreases |xs|
  {
    if xs != [] {
      var n := |xs| - 1;
      IdSetMembers(xs[..n], x);
      if x in IdSet(xs[..n]) {
        var k :| 0 <= k < n && xs[..n][k].id == x;
        assert xs[k].id == x;
      }
      if exists k :: 0 <= k < |xs| && xs[k].id == x {
        var k :| 0 <= k < |xs| && xs[k].id == x;
        if k < n {
          assert xs[..n][k].id == x;
        }
      }
    }
  }

  /** A list of actions has no more ids than actions. */
  lemma {:induction false} IdSetSize(xs: seq<RoundAction>)
    ensures |IdSet(xs)| <= |xs|
    decreases |xs|
  {
    if xs != [] {
      IdSetSize(xs[..|xs| - 1]);
    }
  }

  /** Each user's update names at most five actions, taken from a window of at most five positions. */
  lemma AtMostFivePerUser(a: seq<RoundAction>, u: nat)
    ensures var f := FirstClaimed(a);
            && Reach(u, f) <= Reach(u + 1, f) <= Reach(u, f) + PerUser
            && |Block(a, u)| <= PerUser
  {
    var f := FirstClaimed(a);
    IdSetSize(a[Reach(u, f)..Reach(u + 1, f)]);
  }

  /** When the listed ids are distinct, no action id goes to two users. */
  lemma DisjointBlocks(a: seq<RoundAction>, u: nat, v: nat)
    requires DistinctIds(a)
    requires u < v
    ensures Block(a, u) !! Block(a, v)
  {
    var f := FirstClaimed(a);
    DisjointSlices(a, Reach(u, f), Reach(u + 1, f), Reach(v, f), Reach(v + 1, f));
  }

  /** Two non-overlapping slices of a list with distinct ids share no id. */
  lemma DisjointSlices(a: seq<RoundAction>, lo: nat, mid: nat, hi: nat, top: nat)
    requires DistinctIds(a)
    requires lo <= mid <= hi <= top <= |a|
    ensures IdSet(a[lo..mid]) !! IdSet(a[hi..top])
  {
    forall x | x in IdSet(a[lo..mid]) ensures x !in IdSet(a[hi..top]) {
      IdSetMembers(a[lo..mid], x);
      IdSetMembers(a[hi..top], x);
      var k :| 0 <= k < mid - lo && a[lo..mid][k].id == x;
      assert a[lo..mid][k] == a[lo + k];
    }
  }

  /**
   * With no action owned beforehand, exactly the first min(5 × users, actions)
   * positions are handed out.
   */
  lemma UnclaimedTotal(a: seq<RoundAction>, users: seq<User>)
    requires forall p :: 0 <= p < |a| ==> a[p].userId.None?
    ensures forall p :: 0 <= p < |a| ==>
              (Assigned(a, users)[p].userId.Some? <==> p < PerUser * |users|)
  {
    assert FirstClaimed(a) == |a|;
  }

  /**
   * Nothing at or after the first already-owned action changes, since the
   * index never moves past it, and an owned action is never reassigned.
   */
  lemma ClaimStops(a: seq<RoundAction>, users: seq<User>)
    ensures forall p :: FirstClaimed(a) <= p < |a| ==> Assigned(a, users)[p] == a[p]
    ensures forall p :: 0 <= p < |a| && a[p].userId.Some? ==> Assigned(a, users)[p] == a[p]
  {
  }

  /** Only `userId` is written, and only with the id of the user whose window holds the position. */
  lemma OnlyUserId(a: seq<RoundAction>, users: seq<User>, p: nat)
    requires p < |a|
    ensures var r := Assigned(a, users);
            || r[p] == a[p]
            || (&& a[p].userId.None?
                && PerUser * (p / PerUser) <= p < PerUser * (p / PerUser) + PerUser
                && p / PerUser < |users|
                && r[p] == a[p].(userId := Some(users[p / PerUser].id)))
  {
  }

  /**
   * In the table, the updates only set `userId`, only on actions named in
   * some user's block, and leave every other table alone.
   */
  lemma {:induction false} DistributeOnlyUserIds(s: State, a: seq<RoundAction>, users: seq<User>)
    requires WellFormed(s)
    ensures var r := Distribute(s, a, users);
            && r.(actions := s.actions) == s
            && |r.actions| == |s.actions|
            && forall i :: 0 <= i < |s.actions| ==>
                 && r.actions[i].(userId := s.actions[i].userId) == s.actions[i]
                 && (r.actions[i] != s.actions[i] ==>
                       s.actions[i].id in IdSet(a[..Reach(|users|, FirstClaimed(a))]))
    decreases |users|
  {
    if users != [] {
      var n := |users| - 1;
      var f := FirstClaimed(a);
      DistributeOnlyUserIds(s, a, users[..n]);
      var block := a[Reach(n, f)..Reach(n + 1, f)];
      var all := a[..Reach(n + 1, f)];
      forall x | x in IdSet(a[..Reach(n, f)]) ensures x in IdSet(all) {
        IdSetMembers(a[..Reach(n, f)], x);
        IdSetMembers(all, x);
        var k :| 0 <= k < Reach(n, f) && a[..Reach(n, f)][k].id == x;
        assert all[k] == a[k];
      }
      forall x | x in IdSet(block) ensures x in IdSet(all) {
        IdSetMembers(block, x);
        IdSetMembers(all, x);
        var k :| 0 <= k < |block| && block[k].id == x;
        assert all[Reach(n, f) + k] == block[k];
      }
      assert |users[..n]| == n;
    }
  }

  // ---------------------------------------------------------------- the table

  /** A list with distinct ids holds each action at most once. */
  lemma {:induction false} AtMostOnce(t: seq<RoundAction>, x: RoundAction)
    requires DistinctIds(t)
    ensures multiset(t)[x] <= 1
    decreases |t|
  {
    if t != [] {
      var n := |t| - 1;
      assert t == t[..n] + [t[n]];
      assert DistinctIds(t[..n]);
      AtMostOnce(t[..n], x);
      if x == t[n] {
        assert x !in t[..n] by {
          forall i | 0 <= i < n ensures t[..n][i] != x {
            assert t[..n][i].id != t[n].id;
          }
        }
      }
    }
  }

  /** Two positions of a list that holds each action at most once hold different actions. */
  lemma NoRepeat(a: seq<RoundAction>, i: nat, j: nat)
    requires i < j < |a| && forall x :: multiset(a)[x] <= 1
    ensures a[i] != a[j]
  {
    assert a == a[..j] + a[j..];
    assert a[i] == a[..j][i] && a[j] == a[j..][0];
    assert multiset(a)[a[j]] == multiset(a[..j])[a[j]] + multiset(a[j..])[a[j]];
  }

  /** A reordering of a list with distinct ids has distinct ids. */
  lemma PermutedDistinct(a: seq<RoundAction>, t: seq<RoundAction>)
    requires multiset(a) == multiset(t) && DistinctIds(t)
    ensures DistinctIds(a)
  {
    forall x ensures multiset(a)[x] <= 1 {
      AtMostOnce(t, x);
    }
    forall i, j | 0 <= i < j < |a| ensures a[i].id != a[j].id {
      NoRepeat(a, i, j);
      assert a[i] in multiset(t) && a[j] in multiset(t);
      var p :| 0 <= p < |t| && t[p] == a[i];
      var q :| 0 <= q < |t| && t[q] == a[j];
      if p < q {
        assert t[p].id != t[q].id;
      } else {
        assert t[q].id != t[p].id;
      }
    }
  }

  /**
   * An action of the table that has an owner is in no user's block: every
   * position the index passes holds an unowned action, and ids are distinct.
   */
  lemma BlockUnowned(a: seq<RoundAction>, t: seq<RoundAction>, u: nat, i: nat)
    requires multiset(a) == multiset(t) && DistinctIds(t)
    requires i < |t| && t[i].userId.Some?
    ensures t[i].id !in Block(a, u)
  {
    var f := FirstClaimed(a);
    var slice := a[Reach(u, f)..Reach(u + 1, f)];
    forall k | 0 <= k < |slice| ensures slice[k].id != t[i].id {
      var p := Reach(u, f) + k;
      assert slice[k] == a[p] && a[p].userId.None?;
      assert a[p] in multiset(t);
      var q :| 0 <= q < |t| && t[q] == a[p];
      assert q != i;
      if q < i {
        assert t[q].id != t[i].id;
      } else {
        assert t[i].id != t[q].id;
      }
    }
    IdSetMembers(slice, t[i].id);
  }

  /**
   * What the updates for `users` did to the table `s`, giving `r`: a row named
   * in user u's block went to user u, a row named in no block was left alone.
   */
  ghost predicate BlockEffect(s: State, r: State, a: seq<RoundAction>, users: seq<User>)
    requires |r.actions| == |s.actions|
  {
    && (forall i, u :: 0 <= i < |s.actions| && 0 <= u < |users| && s.actions[i].id in Block(a, u) ==>
          r.actions[i] == s.actions[i].(userId := Some(users[u].id)))
    && (forall i :: 0 <= i < |s.actions| && (forall u :: 0 <= u < |users| ==> s.actions[i].id !in Block(a, u)) ==>
          r.actions[i] == s.actions[i])
  }

  /** One more user's update keeps `BlockEffect`, since that user's block is disjoint from the earlier ones. */
  lemma BlockEffectStep(s: State, r': State, a: seq<RoundAction>, users: seq<User>)
    requires WellFormed(r') && DistinctIds(a) && users != []
    requires |r'.actions| == |s.actions|
    requires forall i :: 0 <= i < |s.actions| ==> r'.actions[i].(userId := s.actions[i].userId) == s.actions[i]
    requires BlockEffect(s, r', a, users[..|users| - 1])
    ensures var r := Rounds.AssignActions(r', Block(a, |users| - 1), users[|users| - 1].id);
            |r.actions| == |s.actions| && BlockEffect(s, r, a, users)
  {
    var n := |users| - 1;
    var prev := users[..n];
    var r := Rounds.AssignActions(r', Block(a, n), users[n].id);
    assert |prev| == n;
    forall i, u | 0 <= i < |s.actions| && 0 <= u < |users| && s.actions[i].id in Block(a, u)
      ensures r.actions[i] == s.actions[i].(userId := Some(users[u].id))
    {
      if u < n {
        DisjointBlocks(a, u, n);
        assert prev[u] == users[u];
        assert r.actions[i] == r'.actions[i];
      } else {
        assert r.actions[i] == r'.actions[i].(userId := Some(users[n].id));
      }
    }
    forall i | 0 <= i < |s.actions| && (forall u :: 0 <= u < |users| ==> s.actions[i].id !in Block(a, u))
      ensures r.actions[i] == s.actions[i]
    {
      assert s.actions[i].id !in Block(a, n);
      assert forall u :: 0 <= u < |prev| ==> s.actions[i].id !in Block(a, u);
    }
  }

  /** What the updates do to each table row, by induction on the users. */
  lemma {:induction false} DistributeEffect(s: State, a: seq<RoundAction>, users: seq<User>)
    requires WellFormed(s) && DistinctIds(a)
    ensures var r := Distribute(s, a, users);
            |r.actions| == |s.actions| && BlockEffect(s, r, a, users)
    decreases |users|
  {
    if users != [] {
      var n := |users| - 1;
      DistributeEffect(s, a, users[..n]);
      DistributeOnlyUserIds(s, a, users[..n]);
      BlockEffectStep(s, Distribute(s, a, users[..n]), a, users);
    }
  }

  /**
   * The distribution on the table, when the array is the table's rows in
   * some order: an action that already had an owner keeps it; an action named
   * in user u's block goes to user u and is named in no other user's block;
   * every other action is left as it was.
   */
  lemma DistributeTable(s: State, a: seq<RoundAction>, users: seq<User>)
    requires WellFormed(s) && multiset(a) == multiset(s.actions)
    ensures var r := Distribute(s, a, users);
            && |r.actions| == |s.actions|
            && (forall i :: 0 <= i < |s.actions| && s.actions[i].userId.Some? ==> r.actions[i] == s.actions[i])
            && (forall i, u :: 0 <= i < |s.actions| && 0 <= u < |users| && s.actions[i].id in Block(a, u) ==>
                  && r.actions[i] == s.actions[i].(userId := Some(users[u].id))
                  && forall v :: 0 <= v < |users| && v != u ==> s.actions[i].id !in Block(a, v))
            && (forall i :: 0 <= i < |s.actions| && (forall u :: 0 <= u < |users| ==> s.actions[i].id !in Block(a, u)) ==>
                  r.actions[i] == s.actions[i])
  {
    assert DistinctIds(s.actions);
    PermutedDistinct(a, s.actions);
    DistributeEffect(s, a, users);
    forall i | 0 <= i < |s.actions| && s.actions[i].userId.Some?
      ensures forall u :: 0 <= u < |users| ==> s.actions[i].id !in Block(a, u)
    {
      forall u | 0 <= u < |users| ensures s.actions[i].id !in Block(a, u) {
        BlockUnowned(a, s.actions, u, i);
      }
    }
    forall i, u, v | 0 <= i < |s.actions| && 0 <= u < |users| && 0 <= v < |users| && v != u && s.actions[i].id in Block(a, u)
      ensures s.actions[i].id !in Block(a, v)
    {
      if u < v {
        DisjointBlocks(a, u, v);
      } else {
        DisjointBlocks(a, v, u);
      }
    }
  }
}
