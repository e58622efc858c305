/**
 * The round tables: the lifecycle of RoundInfo rows (unstarted, started,
 * ended) and the writes and reads of RoundAction rows.
 */
module Rounds {
  import opened Wrappers
  import opened Schema

  predicate Unstarted(r: RoundInfo) {
    r.startedAt.None?
  }

  /** Started and not ended: the round in play. */
  predicate Open(r: RoundInfo) {
    r.startedAt.Some? && r.endedAt.None?
  }

  /** The rounds `startRound` (ToStart) and `endRound` (ToEnd) look for. */
  datatype Stage = ToStart | ToEnd

  predicate Eligible(r: RoundInfo, stage: Stage) {
    match stage
    case ToStart => Unstarted(r)
    case ToEnd => Open(r)
  }

  /** `id` is an eligible round with the lowest roundNumber among the eligible ones. */
  ghost predicate LowestIn(rs: map<Id, RoundInfo>, id: Id, stage: Stage) {
    && id in rs
    && Eligible(rs[id], stage)
    && forall k :: k in rs && Eligible(rs[k], stage) ==> rs[id].roundNumber <= rs[k].roundNumber
  }

  /** The `findFirst ... orderBy roundNumber asc` of `startRound` and `endRound`. */
  method FindLowest(rs: map<Id, RoundInfo>, stage: Stage) returns (r: Option<Id>)
    ensures r.Some? ==> LowestIn(rs, r.value, stage)
    ensures r.None? ==> forall k :: k in rs ==> !Eligible(rs[k], stage)
  {
    r := None;
    var todo := rs.Keys;
    ghost var done: set<Id> := {};
    while todo != {}
      invariant todo + done == rs.Keys && todo !! done
      invariant r.Some? ==> r.value in done && Eligible(rs[r.value], stage)
      invariant r.Some? ==> forall k :: k in done && Eligible(rs[k], stage) ==> rs[r.value].roundNumber <= rs[k].roundNumber
      invariant r.None? ==> forall k :: k in done ==> !Eligible(rs[k], stage)
      decreases |todo|
    {
      var k :| k in todo;
      if Eligible(rs[k], stage) && (r.None? || rs[k].roundNumber < rs[r.value].roundNumber) {
        r := Some(k);
      }
      todo := todo - {k};
      done := done + {k};
    }
  }

  /** `getCurrentRoundInfo`: some open round, or none when no round is open. */
  method GetCurrentRoundInfo(rs: map<Id, RoundInfo>) returns (r: Option<RoundInfo>)
    ensures r.None? <==> forall k :: k in rs ==> !Open(rs[k])
    ensures r.Some? ==> r.value in rs.Values && Open(r.value)
  {
    if k :| k in rs && Open(rs[k]) {
      r := Some(rs[k]);
    } else {
      r := None;
    }
  }

  /** The update of `startRound` (sets startedAt) or `endRound` (sets endedAt) on one round. */
  function Stamp(rs: map<Id, RoundInfo>, id: Id, stage: Stage, now: int): (r: map<Id, RoundInfo>)
    requires id in rs
    ensures r.Keys == rs.Keys
    ensures forall k :: k in rs && k != id ==> r[k] == rs[k]
    ensures stage == ToStart ==> r[id] == rs[id].(startedAt := Some(now))
    ensures stage == ToEnd ==> r[id] == rs[id].(endedAt := Some(now))
  {
    rs[id := match stage
             case ToStart => rs[id].(startedAt := Some(now))
             case ToEnd => rs[id].(endedAt := Some(now))]
  }

  /** The database after `startRound`/`endRound` stamped round `id`. */
  function StampRound(s: State, id: Id, stage: Stage, now: int): (r: State)
    requires WellFormed(s) && id in s.rounds
    ensures WellFormed(r)
    ensures r == s.(rounds := Stamp(s.rounds, id, stage, now))
  {
    s.(rounds := Stamp(s.rounds, id, stage, now))
  }

  // ---------------------------------------------------------------- lifecycle

  /** Timestamps are only ever set, never cleared or moved, and nothing else about a round changes. */
  ghost predicate Advances(before: map<Id, RoundInfo>, after: map<Id, RoundInfo>) {
    && before.Keys == after.Keys
    && forall k :: k in before ==>
         && after[k].id == before[k].id
         && after[k].roundNumber == before[k].roundNumber
         && (before[k].startedAt.Some? ==> after[k].startedAt == before[k].startedAt)
         && (before[k].endedAt.Some? ==> after[k].endedAt == before[k].endedAt)
  }

  /** Each start or end moves one round one step forward: unstarted to started, or started to ended. */
  lemma StampAdvances(rs: map<Id, RoundInfo>, id: Id, stage: Stage, now: int)
    requires LowestIn(rs, id, stage)
    ensures Advances(rs, Stamp(rs, id, stage, now))
    ensures stage == ToStart ==> Unstarted(rs[id]) && !Unstarted(Stamp(rs, id, stage, now)[id])
    ensures stage == ToEnd ==> Open(rs[id]) && !Open(Stamp(rs, id, stage, now)[id])
  {
  }

  ghost predicate NoneOpen(rs: map<Id, RoundInfo>) {
    forall k :: k in rs ==> !Open(rs[k])
  }

  ghost predicate AtMostOneOpen(rs: map<Id, RoundInfo>) {
    forall a, b :: a in rs && b in rs && Open(rs[a]) && Open(rs[b]) ==> a == b
  }

  /** Every started round has a roundNumber no larger than any unstarted round's. */
  ghost predicate StartedFirst(rs: map<Id, RoundInfo>) {
    forall a, b :: a in rs && b in rs && !Unstarted(rs[a]) && Unstarted(rs[b]) ==>
      rs[a].roundNumber <= rs[b].roundNumber
  }

  /** One call of `startRound` (ToStart) or `endRound` (ToEnd): the lowest eligible round is stamped, or nothing changes when there is none. */
  ghost predicate Step(before: map<Id, RoundInfo>, after: map<Id, RoundInfo>, stage: Stage) {
    || (exists id, now :: LowestIn(before, id, stage) && after == Stamp(before, id, stage, now))
    || ((forall k :: k in before ==> !Eligible(before[k], stage)) && after == before)
  }

  /** `startRound` does not look for an open round: starting while one is open leaves two open. */
  lemma StartIgnoresOpenRound(rs: map<Id, RoundInfo>, id: Id, now: int, open: Id)
    requires LowestIn(rs, id, ToStart) && rs[id].endedAt.None?
    requires open in rs && Open(rs[open])
    ensures var after := Stamp(rs, id, ToStart, now);
            open != id && Open(after[open]) && Open(after[id]) && !AtMostOneOpen(after)
  {
  }

  /** Starting from no open round, a start leaves at most one open round. */
  lemma StartFromClosed(rs: map<Id, RoundInfo>, after: map<Id, RoundInfo>)
    requires NoneOpen(rs) && Step(rs, after, ToStart)
    ensures AtMostOneOpen(after)
  {
    if id, now :| LowestIn(rs, id, ToStart) && after == Stamp(rs, id, ToStart, now) {
      forall a, b | a in after && b in after && Open(after[a]) && Open(after[b]) ensures a == b {
        assert a == id && b == id;
      }
    }
  }

  /** With at most one open round, an end leaves none open. */
  lemma EndCloses(rs: map<Id, RoundInfo>, after: map<Id, RoundInfo>)
    requires AtMostOneOpen(rs) && Step(rs, after, ToEnd)
    ensures NoneOpen(after)
  {
    if id, now :| LowestIn(rs, id, ToEnd) && after == Stamp(rs, id, ToEnd, now) {
      forall k | k in after ensures !Open(after[k]) {
        if k != id {
          assert after[k] == rs[k];
        }
      }
    }
  }

  /** Starts and ends both keep started rounds ahead of unstarted ones in roundNumber order. */
  lemma StepKeepsStartedFirst(rs: map<Id, RoundInfo>, after: map<Id, RoundInfo>, stage: Stage)
    requires StartedFirst(rs) && Step(rs, after, stage)
    ensures StartedFirst(after)
  {
    if id, now :| LowestIn(rs, id, stage) && after == Stamp(rs, id, stage, now) {
      forall a, b | a in after && b in after && !Unstarted(after[a]) && Unstarted(after[b])
        ensures after[a].roundNumber <= after[b].roundNumber
      {
        if a == id && stage == ToStart {
          assert Eligible(rs[b], ToStart);
        }
      }
    }
  }

  /** Under StartedFirst the round a start picks is numbered no lower than any round started before it. */
  lemma StartComesAfterStarted(rs: map<Id, RoundInfo>, id: Id, k: Id)
    requires StartedFirst(rs) && LowestIn(rs, id, ToStart)
    requires k in rs && !Unstarted(rs[k])
    ensures rs[k].roundNumber <= rs[id].roundNumber
  {
  }

  /** A table in which no round has started satisfies every lifecycle invariant. */
  lemma FreshTable(rs: map<Id, RoundInfo>)
    requires forall k :: k in rs ==> Unstarted(rs[k])
    ensures NoneOpen(rs) && AtMostOneOpen(rs) && StartedFirst(rs)
  {
  }

  /** The call made at position j of an alternating history: starts at odd positions, ends at even ones. */
  function CallAt(j: int): Stage {
    if j % 2 == 1 then ToStart else ToEnd
  }

  /**
   * A history of strictly alternating `startRound`, `endRound`, `startRound`, ...
   * calls from a table of unstarted rounds: after every end no round is open,
   * after every start at most one is, and started rounds always precede
   * unstarted ones in roundNumber order.
   */
  lemma {:induction false} Alternation(trace: seq<map<Id, RoundInfo>>, i: nat)
    requires |trace| > 0 && forall k :: k in trace[0] ==> Unstarted(trace[0][k])
    requires forall j {:trigger CallAt(j)} :: 0 < j < |trace| ==> Step(trace[j - 1], trace[j], CallAt(j))
    requires i < |trace|
    ensures i % 2 == 0 ==> NoneOpen(trace[i])
    ensures AtMostOneOpen(trace[i])
    ensures StartedFirst(trace[i])
  {
    if i == 0 {
      FreshTable(trace[0]);
    } else {
      Alternation(trace, i - 1);
      var stage := CallAt(i);
      assert (i - 1) % 2 == 0 <==> stage == ToStart;
      assert Step(trace[i - 1], trace[i], stage);
      AlternationStep(trace[i - 1], trace[i], stage);
    }
  }

  /** One call of the alternation: a start from no open round, or an end from at most one. */
  lemma AlternationStep(rs: map<Id, RoundInfo>, after: map<Id, RoundInfo>, stage: Stage)
    requires Step(rs, after, stage) && AtMostOneOpen(rs) && StartedFirst(rs)
    requires stage == ToStart ==> NoneOpen(rs)
    ensures stage == ToEnd ==> NoneOpen(after)
    ensures AtMostOneOpen(after) && StartedFirst(after)
  {
    StepKeepsStartedFirst(rs, after, stage);
    if stage == ToStart {
      StartFromClosed(rs, after);
    } else {
      EndCloses(rs, after);
    }
  }

  // ---------------------------------------------------------------- seeding and actions

  /** `prisma.roundInfo.create` of `createRounds`: a new unstarted round. */
  function CreateRound(s: State, roundNumber: int): (r: State)
    requires WellFormed(s)
    ensures WellFormed(r)
    ensures s.nextId !in s.rounds && r.rounds.Keys == s.rounds.Keys + {s.nextId}
    ensures r.rounds[s.nextId].roundNumber == roundNumber && Unstarted(r.rounds[s.nextId]) && !Open(r.rounds[s.nextId])
    ensures forall k :: k in s.rounds ==> r.rounds[k] == s.rounds[k]
    ensures r.(rounds := s.rounds, nextId := s.nextId) == s
  {
    s.(rounds := s.rounds[s.nextId := RoundInfo(s.nextId, roundNumber, None, None)], nextId := s.nextId + 1)
  }

  /** `saveRoundAction`: appends one unassigned action for an existing stock and round. */
  function SaveRoundAction(s: State, stockId: Id, diff: int, roundInfoId: Id, price: int): (r: State)
    requires WellFormed(s) && stockId in s.stocks && roundInfoId in s.rounds
    ensures WellFormed(r)
    ensures |r.actions| == |s.actions| + 1 && r.actions[..|s.actions|] == s.actions
    ensures var a := r.actions[|s.actions|];
            a.stockId == stockId && a.diff == diff && a.roundInfoId == roundInfoId && a.price == price && a.userId.None?
    ensures r.(actions := s.actions, nextId := s.nextId) == s
  {
    s.(actions := s.actions + [RoundAction(s.nextId, stockId, roundInfoId, price, diff, None)], nextId := s.nextId + 1)
  }

  /** The `roundAction.updateMany` of the distribution script: sets userId on the actions whose id is listed. */
  function AssignActions(s: State, ids: set<Id>, userId: Id): (r: State)
    requires WellFormed(s)
    ensures WellFormed(r)
    ensures |r.actions| == |s.actions|
    ensures forall i :: 0 <= i < |s.actions| ==>
              r.actions[i] == if s.actions[i].id in ids then s.actions[i].(userId := Some(userId)) else s.actions[i]
    ensures r.(actions := s.actions) == s
  {
    s.(actions := seq(|s.actions|, i requires 0 <= i < |s.actions| =>
                    if s.actions[i].id in ids then s.actions[i].(userId := Some(userId)) else s.actions[i]))
  }

  predicate InRound(s: State, a: RoundAction, n: int)
    requires a.roundInfoId in s.rounds
  {
    s.rounds[a.roundInfoId].roundNumber == n
  }

  /**
   * `listRoundActionsByRoundNumber(n)`: the actions whose round is numbered
   * `n`, each exactly once and joined with its stock row as it is now.
   */
  function ListRoundActionsByRoundNumber(s: State, n: int): (r: seq<ActionWithStock>)
    requires WellFormed(s)
    ensures forall x :: x in r ==>
              x.action in s.actions && InRound(s, x.action, n) && x.stock == s.stocks[x.action.stockId]
    ensures forall i :: 0 <= i < |s.actions| && InRound(s, s.actions[i], n) ==>
              ActionWithStock(s.actions[i], s.stocks[s.actions[i].stockId]) in r
    ensures forall i, j :: 0 <= i < j < |r| ==> r[i].action.id != r[j].action.id
    decreases |s.actions|
  {
    if s.actions == [] then []
    else
      var last := s.actions[|s.actions| - 1];
      var prefix := s.(actions := s.actions[..|s.actions| - 1]);
      var head := ListRoundActionsByRoundNumber(prefix, n);
      assert forall i :: 0 <= i < |s.actions| - 1 ==> s.actions[i] == prefix.actions[i];
      assert forall x :: x in head ==> x.action.id != last.id by {
        forall x | x in head ensures x.action.id != last.id {
          var p :| 0 <= p < |prefix.actions| && prefix.actions[p] == x.action;
          assert s.actions[p] == x.action;
        }
      }
      head + if InRound(s, last, n) then [ActionWithStock(last, s.stocks[last.stockId])] else []
  }
}
