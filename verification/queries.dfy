/**
 * Reads that the database answers with `findFirst` on a non-key column or with
 * an ordered `findMany`. Which of several matching rows `findFirst` returns is
 * up to the database, so these are methods that may pick any of them.
 */
module Queries {
  import opened Wrappers
  import opened Schema

  /** `getUserByName`: some user with that name, or none when nobody has it. */
  method GetUserByName(users: map<Id, User>, name: string) returns (r: Option<User>)
    ensures r.None? <==> forall k :: k in users ==> users[k].name != name
    ensures r.Some? ==> r.value.name == name && r.value in users.Values
  {
    if k :| k in users && users[k].name == name {
      r := Some(users[k]);
    } else {
      r := None;
    }
  }

  // ---------------------------------------------------------------- names

  /** Code-point lexicographic order on names. */
  predicate NameLe(a: string, b: string)
    decreases |a|
  {
    |a| == 0 || (|b| > 0 && (a[0] < b[0] || (a[0] == b[0] && NameLe(a[1..], b[1..]))))
  }

  lemma {:induction false} NameLeTotal(a: string, b: string)
    ensures NameLe(a, b) || NameLe(b, a)
    decreases |a|
  {
    if |a| > 0 && |b| > 0 && a[0] == b[0] {
      NameLeTotal(a[1..], b[1..]);
    }
  }

  lemma {:induction false} NameLeTransitive(a: string, b: string, c: string)
    requires NameLe(a, b) && NameLe(b, c)
    ensures NameLe(a, c)
    decreases |a|
  {
    if |a| > 0 && a[0] == b[0] && b[0] == c[0] {
      NameLeTransitive(a[1..], b[1..], c[1..]);
    }
  }

  predicate SortedByName(s: seq<Stock>) {
    forall i, j :: 0 <= i < j < |s| ==> NameLe(s[i].name, s[j].name)
  }

  /** Inserts one stock into a name-sorted list, keeping it sorted. */
  function InsertByName(x: Stock, s: seq<Stock>): (r: seq<Stock>)
    requires SortedByName(s)
    ensures SortedByName(r)
    ensures multiset(r) == multiset(s) + multiset{x}
    decreases |s|
  {
    if s == [] then [x]
    else if NameLe(x.name, s[0].name) then
      BelowHeadBelowAll(x, s);
      ConsSorted(x, s);
      [x] + s
    else
      var rest := InsertByName(x, s[1..]);
      InsertBelowHead(x, s, rest);
      ConsSorted(s[0], rest);
      assert s == [s[0]] + s[1..];
      [s[0]] + rest
  }

  /** Every element of the insertion into the tail is at or above the head. */
  lemma InsertBelowHead(x: Stock, s: seq<Stock>, rest: seq<Stock>)
    requires SortedByName(s) && s != [] && !NameLe(x.name, s[0].name)
    requires multiset(rest) == multiset(s[1..]) + multiset{x}
    ensures forall z :: z in rest ==> NameLe(s[0].name, z.name)
  {
    NameLeTotal(x.name, s[0].name);
    forall z | z in rest ensures NameLe(s[0].name, z.name) {
      assert z in multiset(rest);
      if z != x {
        assert z in multiset(s[1..]);
        var j :| 0 <= j < |s[1..]| && s[1..][j] == z;
        assert s[j + 1] == z;
      }
    }
  }

  lemma BelowHeadBelowAll(x: Stock, s: seq<Stock>)
    requires SortedByName(s) && s != [] && NameLe(x.name, s[0].name)
    ensures forall z :: z in s ==> NameLe(x.name, z.name)
  {
    forall z | z in s ensures NameLe(x.name, z.name) {
      var j :| 0 <= j < |s| && s[j] == z;
      if j > 0 {
        NameLeTransitive(x.name, s[0].name, z.name);
      }
    }
  }

  /** Putting an element that is at or below the whole of a sorted list in front keeps it sorted. */
  lemma ConsSorted(y: Stock, t: seq<Stock>)
    requires SortedByName(t)
    requires forall z :: z in t ==> NameLe(y.name, z.name)
    ensures SortedByName([y] + t)
  {
    var u := [y] + t;
    forall i, j | 0 <= i < j < |u| ensures NameLe(u[i].name, u[j].name) {
      if i == 0 {
        assert u[j] == t[j - 1] && u[j] in t;
      } else {
        assert u[i] == t[i - 1] && u[j] == t[j - 1];
      }
    }
  }

  /** The members of a list that grew by one element. */
  lemma InsertedMembers(x: Stock, s: seq<Stock>, r: seq<Stock>)
    requires multiset(r) == multiset(s) + multiset{x}
    ensures |r| == |s| + 1
    ensures forall z :: z in r <==> z in s || z == x
  {
    assert |multiset(r)| == |multiset(s)| + 1;
    forall z ensures z in r <==> z in s || z == x {
      assert z in r <==> z in multiset(r);
      assert z in s <==> z in multiset(s);
    }
  }

  /** `listStocks`: every stock exactly once, ordered by name ascending. */
  method ListStocks(stocks: map<Id, Stock>) returns (r: seq<Stock>)
    requires forall k :: k in stocks ==> stocks[k].id == k
    ensures SortedByName(r)
    ensures |r| == |stocks|
    ensures forall x :: x in r ==> x.id in stocks && stocks[x.id] == x
    ensures forall k :: k in stocks ==> stocks[k] in r
  {
    r := [];
    var todo := stocks.Keys;
    ghost var done: set<Id> := {};
    while todo != {}
      invariant todo + done == stocks.Keys && todo !! done
      invariant SortedByName(r)
      invariant |r| == |done|
      invariant forall x :: x in r ==> x.id in done && stocks[x.id] == x
      invariant forall k :: k in done ==> stocks[k] in r
      decreases |todo|
    {
      var k :| k in todo;
      var before := r;
      r := InsertByName(stocks[k], r);
      InsertedMembers(stocks[k], before, r);
      todo := todo - {k};
      done := done + {k};
    }
  }
}
