/** Tài/Xỉu: a timed round per chat in which players bet on whether the sum of
    three dice is high (Tài, 11..18) or low (Xỉu, 3..10). The stake is debited
    when the bet is placed; a winning bet is paid twice its stake. */
module TaiXiu {
  import opened Options
  import opened Ledger

  datatype Side = Tai | Xiu

  /** One entry of `session.bets`; the display name it also carries is left out. */
  datatype Bet = Bet(uid: int, choice: Side, amount: int)

  /** Seconds from the first bet to the round's deadline. */
  const DefaultCountdown := 10
  /** Seconds of silence after the last bet that close a round early. */
  const AutoCloseAfterLastBet := 5

  predicate IsDie(d: int) { 1 <= d <= 6 }

  /** The result of a fresh roll: Tài when the three dice sum to at least 11. */
  function DiceOutcome(d1: int, d2: int, d3: int): (r: Side)
    requires IsDie(d1) && IsDie(d2) && IsDie(d3)
    ensures r == Tai <==> 11 <= d1 + d2 + d3 <= 18
    ensures r == Xiu <==> 3 <= d1 + d2 + d3 <= 10
  {
    if d1 + d2 + d3 >= 11 then Tai else Xiu
  }

  /** Turning every die upside down (d becomes 7 - d) flips the result, so the
      216 equally likely rolls split evenly between Tài and Xỉu. */
  lemma DiceOutcomeMirror(d1: int, d2: int, d3: int)
    requires IsDie(d1) && IsDie(d2) && IsDie(d3)
    ensures IsDie(7 - d1) && IsDie(7 - d2) && IsDie(7 - d3)
    ensures DiceOutcome(7 - d1, 7 - d2, 7 - d3) != DiceOutcome(d1, d2, d3)
  {
  }

  /** The outcome drawn at the end of a round and the session's new memory. */
  datatype Resolution = Resolution(result: Side, remembered: Option<Side>)

  /** Result selection at the end of a round. `repeat` stands for the draw
      `random.random() < 0.6`, which is only made when a previous result exists;
      the dice are the three `randint(1, 6)` draws. */
  function Resolve(previous: Option<Side>, repeat: bool, d1: int, d2: int, d3: int): (r: Resolution)
    requires IsDie(d1) && IsDie(d2) && IsDie(d3)
    ensures previous.None? ==> r.result == DiceOutcome(d1, d2, d3)
    ensures r.result != DiceOutcome(d1, d2, d3) ==> previous == Some(r.result)
    ensures r.remembered.Some? && (previous.None? ==> r.remembered == Some(r.result))
    ensures !repeat ==> r.result == DiceOutcome(d1, d2, d3) && r.remembered == Some(r.result)
    ensures previous.Some? && repeat ==> r == Resolution(previous.value, previous)
  {
    if previous.Some? && repeat then
      Resolution(previous.value, previous)
    else
      var s := DiceOutcome(d1, d2, d3);
      Resolution(s, Some(s))
  }

  /** What one pass of the countdown loop observes: the clock, and the session's
      last-bet time and number of bets (bets keep arriving while the loop polls). */
  datatype Poll = Poll(now: int, lastBet: Option<int>, betCount: nat)

  /** The round closes at its deadline, or once it has a bet and has been quiet
      for AutoCloseAfterLastBet seconds since the last one. */
  predicate ShouldClose(endTime: int, p: Poll)
    ensures p.now >= endTime ==> ShouldClose(endTime, p)
    ensures ShouldClose(endTime, p) && p.now < endTime ==> p.betCount > 0 && p.lastBet.Some?
  {
    p.now >= endTime
    || (p.betCount > 0 && p.lastBet.Some? && p.now - p.lastBet.value >= AutoCloseAfterLastBet)
  }

  /** A round without bets is never closed early: only its deadline ends it. */
  lemma NoBetsCloseOnlyAtDeadline(endTime: int, p: Poll)
    requires p.betCount == 0
    ensures ShouldClose(endTime, p) <==> p.now >= endTime
  {
  }

  /** The polling loop of the countdown task: returns the index of the poll at
      which it breaks out, or None if it is still polling after the last one. */
  method RunTxCountdown(endTime: int, polls: seq<Poll>) returns (closedAt: Option<nat>)
    ensures closedAt.Some? ==> closedAt.value < |polls| && ShouldClose(endTime, polls[closedAt.value])
    ensures closedAt.Some? ==> forall j :: 0 <= j < closedAt.value ==> !ShouldClose(endTime, polls[j])
    ensures closedAt.None? ==> forall j :: 0 <= j < |polls| ==> !ShouldClose(endTime, polls[j])
    ensures forall k :: 0 <= k < |polls| && polls[k].now >= endTime ==> closedAt.Some? && closedAt.value <= k
  {
    var i := 0;
    while i < |polls|
      invariant 0 <= i <= |polls|
      invariant forall j :: 0 <= j < i ==> !ShouldClose(endTime, polls[j])
    {
      var p := polls[i];
      if p.lastBet.Some? && p.now - p.lastBet.value >= AutoCloseAfterLastBet && p.betCount > 0 {
        return Some(i);
      }
      if p.now >= endTime {
        return Some(i);
      }
      i := i + 1;
    }
    return None;
  }

  // ----- Settlement -----

  /** The balances after paying out `bets` in order: a winning bet credits twice
      its stake; a losing bet leaves the balance alone (its stake is already gone). */
  function SettleBalances(balances: map<int, int>, bets: seq<Bet>, result: Side): map<int, int>
    decreases |bets|
  {
    if bets == [] then balances
    else
      var b := bets[|bets| - 1];
      var before := SettleBalances(balances, bets[..|bets| - 1], result);
      if b.choice == result then Adjust(before, b.uid, 2 * b.amount) else before
  }

  /** The leaderboard after `bets`: net profit +stake for a win, -stake for a loss. */
  function SettleScores(scores: map<int, int>, bets: seq<Bet>, result: Side): map<int, int>
    decreases |bets|
  {
    if bets == [] then scores
    else
      var b := bets[|bets| - 1];
      var before := SettleScores(scores, bets[..|bets| - 1], result);
      Adjust(before, b.uid, if b.choice == result then b.amount else -b.amount)
  }

  /** Total stake `uid` placed on the winning side. */
  function Won(bets: seq<Bet>, uid: int, result: Side): int
    decreases |bets|
  {
    if bets == [] then 0
    else
      var b := bets[|bets| - 1];
      Won(bets[..|bets| - 1], uid, result) + (if b.uid == uid && b.choice == result then b.amount else 0)
  }

  /** Total stake `uid` placed on the losing side. */
  function Lost(bets: seq<Bet>, uid: int, result: Side): int
    decreases |bets|
  {
    if bets == [] then 0
    else
      var b := bets[|bets| - 1];
      Lost(bets[..|bets| - 1], uid, result) + (if b.uid == uid && b.choice != result then b.amount else 0)
  }

  /** Total stake on the winning side, over all players. */
  function WinningStakes(bets: seq<Bet>, result: Side): int
    decreases |bets|
  {
    if bets == [] then 0
    else
      var b := bets[|bets| - 1];
      WinningStakes(bets[..|bets| - 1], result) + (if b.choice == result then b.amount else 0)
  }

  /** The settlement loop of `end_tx_session`: each bet in order credits
      twice its stake to a winner's balance and its net win to the winner's
      score, or debits a loser's score by the stake. */
  method Settle(balances: map<int, int>, scores: map<int, int>, bets: seq<Bet>, result: Side)
    returns (balances': map<int, int>, scores': map<int, int>)
    ensures balances' == SettleBalances(balances, bets, result)
    ensures scores' == SettleScores(scores, bets, result)
  {
    balances', scores' := balances, scores;
    var i := 0;
    while i < |bets|
      invariant 0 <= i <= |bets|
      invariant balances' == SettleBalances(balances, bets[..i], result)
      invariant scores' == SettleScores(scores, bets[..i], result)
    {
      var b := bets[i];
      assert bets[..i + 1][..i] == bets[..i];
      if b.choice == result {
        balances' := Adjust(balances', b.uid, 2 * b.amount);
        scores' := Adjust(scores', b.uid, 2 * b.amount - b.amount);
      } else {
        scores' := Adjust(scores', b.uid, -b.amount);
      }
      i := i + 1;
    }
    assert bets[..i] == bets;
  }

  /** Per account, settlement adds twice the winning stake to the balance and
      winning minus losing stake to the leaderboard. */
  lemma {:induction false} SettleAccount(balances: map<int, int>, scores: map<int, int>, bets: seq<Bet>, result: Side, uid: int)
    ensures Get(SettleBalances(balances, bets, result), uid) == Get(balances, uid) + 2 * Won(bets, uid, result)
    ensures Get(SettleScores(scores, bets, result), uid) == Get(scores, uid) + Won(bets, uid, result) - Lost(bets, uid, result)
  {
    if bets != [] {
      SettleAccount(balances, scores, bets[..|bets| - 1], result, uid);
    }
  }

  /** An account that placed no bet is untouched: same entry (or none) in both maps. */
  lemma {:induction false} SettleUntouched(balances: map<int, int>, scores: map<int, int>, bets: seq<Bet>, result: Side, uid: int)
    requires forall b :: b in bets ==> b.uid != uid
    ensures uid in SettleBalances(balances, bets, result) <==> uid in balances
    ensures Get(SettleBalances(balances, bets, result), uid) == Get(balances, uid)
    ensures uid in SettleScores(scores, bets, result) <==> uid in scores
    ensures Get(SettleScores(scores, bets, result), uid) == Get(scores, uid)
  {
    if bets != [] {
      var init := bets[..|bets| - 1];
      assert forall b :: b in init ==> b in bets;
      assert bets[|bets| - 1] in bets;
      SettleUntouched(balances, scores, init, result, uid);
    }
  }

  predicate Distinct(uids: seq<int>)
  {
    forall i, j :: 0 <= i < j < |uids| ==> uids[i] != uids[j]
  }

  /** Sum over the listed accounts of how much their balance went up. */
  function Credited(before: map<int, int>, after: map<int, int>, uids: seq<int>): int
  {
    if uids == [] then 0
    else Get(after, uids[0]) - Get(before, uids[0]) + Credited(before, after, uids[1..])
  }

  /** Sum over the listed accounts of their winning stakes. */
  function SumWon(bets: seq<Bet>, result: Side, uids: seq<int>): int
  {
    if uids == [] then 0 else Won(bets, uids[0], result) + SumWon(bets, result, uids[1..])
  }

  /** Sum over the listed accounts of `a` for `x` and 0 for the others. */
  function PickOut(uids: seq<int>, x: int, a: int): int
  {
    if uids == [] then 0 else (if uids[0] == x then a else 0) + PickOut(uids[1..], x, a)
  }

  lemma {:induction false} PickOutDistinct(uids: seq<int>, x: int, a: int)
    requires Distinct(uids)
    ensures PickOut(uids, x, a) == if x in uids then a else 0
  {
    if uids != [] {
      assert Distinct(uids[1..]);
      assert uids[0] == x ==> x !in uids[1..];
      assert x in uids <==> uids[0] == x || x in uids[1..];
      PickOutDistinct(uids[1..], x, a);
    }
  }

  lemma {:induction false} SumWonLast(bets: seq<Bet>, result: Side, uids: seq<int>)
    requires bets != []
    ensures var b := bets[|bets| - 1];
            SumWon(bets, result, uids)
            == SumWon(bets[..|bets| - 1], result, uids) + PickOut(uids, b.uid, if b.choice == result then b.amount else 0)
  {
    if uids != [] {
      SumWonLast(bets, result, uids[1..]);
    }
  }

  lemma {:induction false} SumWonCovers(bets: seq<Bet>, result: Side, uids: seq<int>)
    requires Distinct(uids)
    requires forall b :: b in bets ==> b.uid in uids
    ensures SumWon(bets, result, uids) == WinningStakes(bets, result)
  {
    if bets == [] {
      SumWonEmpty(result, uids);
    } else {
      var init, b := bets[..|bets| - 1], bets[|bets| - 1];
      assert forall c :: c in init ==> c in bets;
      assert b in bets;
      SumWonCovers(init, result, uids);
      SumWonLast(bets, result, uids);
      PickOutDistinct(uids, b.uid, if b.choice == result then b.amount else 0);
    }
  }

  lemma {:induction false} SumWonEmpty(result: Side, uids: seq<int>)
    ensures SumWon([], result, uids) == 0
  {
    if uids != [] {
      SumWonEmpty(result, uids[1..]);
    }
  }

  lemma {:induction false} CreditedIsTwiceWon(balances: map<int, int>, bets: seq<Bet>, result: Side, uids: seq<int>)
    ensures Credited(balances, SettleBalances(balances, bets, result), uids) == 2 * SumWon(bets, result, uids)
  {
    if uids != [] {
      SettleAccount(balances, map[], bets, result, uids[0]);
      CreditedIsTwiceWon(balances, bets, result, uids[1..]);
    }
  }

  /** Conservation of settlement: over any list of distinct accounts that
      includes every bettor, the money credited is exactly twice the total stake
      on the winning side. */
  lemma SettleTotal(balances: map<int, int>, bets: seq<Bet>, result: Side, uids: seq<int>)
    requires Distinct(uids)
    requires forall b :: b in bets ==> b.uid in uids
    ensures Credited(balances, SettleBalances(balances, bets, result), uids) == 2 * WinningStakes(bets, result)
  {
    CreditedIsTwiceWon(balances, bets, result, uids);
    SumWonCovers(bets, result, uids);
  }

  // ----- Sessions -----

  /** The state of one round (`TxSession`). */
  class TxSession {
    const chatId: int
    var bets: seq<Bet>
    var endTime: int
    var lastBetTime: Option<int>
    var running: bool
    var previousResult: Option<Side>

    /** A session as the first bet of a round creates it: running, with its
        deadline DefaultCountdown seconds away and no previous result. */
    constructor Open(chatId: int, now: int)
      ensures this.chatId == chatId && bets == [] && endTime == now + DefaultCountdown
      ensures lastBetTime == None && running && previousResult == None
    {
      this.chatId := chatId;
      bets := [];
      endTime := now + DefaultCountdown;
      lastBetTime := None;
      running := true;
      previousResult := None;
    }
  }

  /** `active_tx`: the current session of each chat. */
  class TxTable {
    var active: map<int, TxSession>

    /** Each session is filed under its own chat, and no session in the table
        remembers a previous result. */
    ghost predicate Valid()
      reads this, active.Values
    {
      forall c :: c in active ==> active[c].chatId == c && active[c].previousResult.None?
    }

    constructor ()
      ensures Valid() && active == map[]
    {
      active := map[];
    }

    /** `tx_callback`: the funds check and debit, then the bet is appended to
        the chat's running session, or to a new one when there is none. */
    method PlaceBet(eco: Economy, chat: int, uid: int, choice: Side, amount: int, now: int) returns (placed: bool)
      requires Valid()
      modifies this, eco, if chat in active && active[chat].running then {active[chat]} else {}
      ensures Valid()
      ensures placed <==> Get(old(eco.balances), uid) >= amount
      ensures eco.leaderboard == old(eco.leaderboard)
      ensures !placed ==> eco.balances == old(eco.balances) && active == old(active)
      ensures !placed && chat in active ==> unchanged(active[chat])
      ensures placed ==> eco.balances == Debit(old(eco.balances), uid, amount).value
      ensures placed ==> chat in active && active == old(active)[chat := active[chat]]
      ensures placed ==> active[chat].running && active[chat].lastBetTime == Some(now)
      ensures placed && chat in old(active) && old(active[chat].running) ==>
                active[chat] == old(active[chat])
                && active[chat].bets == old(active[chat].bets) + [Bet(uid, choice, amount)]
                && active[chat].endTime == old(active[chat].endTime)
      ensures chat in old(active) && !old(active[chat].running) ==> unchanged(old(active[chat]))
      ensures placed && !(chat in old(active) && old(active[chat].running)) ==>
                fresh(active[chat])
                && active[chat].bets == [Bet(uid, choice, amount)]
                && active[chat].endTime == now + DefaultCountdown
    {
      if Get(eco.balances, uid) < amount {
        return false;
      }
      eco.balances := Adjust(eco.balances, uid, -amount);
      var s: TxSession;
      if chat in active && active[chat].running {
        s := active[chat];
      } else {
        s := new TxSession.Open(chat, now);
        active := active[chat := s];
      }
      s.bets := s.bets + [Bet(uid, choice, amount)];
      s.lastBetTime := Some(now);
      placed := true;
    }

    /** `end_tx_session`: stop the round, draw the result, pay every bet in
        order, and drop the chat's entry from the table. */
    method EndSession(eco: Economy, s: TxSession, repeat: bool, d1: int, d2: int, d3: int) returns (result: Side)
      requires Valid()
      requires IsDie(d1) && IsDie(d2) && IsDie(d3)
      modifies this, eco, s
      ensures Valid()
      ensures result == Resolve(old(s.previousResult), repeat, d1, d2, d3).result
      ensures old(s.chatId in active && active[s.chatId] == s) ==> result == DiceOutcome(d1, d2, d3)
      ensures !s.running && s.previousResult == Resolve(old(s.previousResult), repeat, d1, d2, d3).remembered
      ensures s.bets == old(s.bets) && s.endTime == old(s.endTime) && s.lastBetTime == old(s.lastBetTime)
      ensures eco.balances == SettleBalances(old(eco.balances), s.bets, result)
      ensures eco.leaderboard == SettleScores(old(eco.leaderboard), s.bets, result)
      ensures active == old(active) - {s.chatId}
    {
      s.running := false;
      if s.previousResult.Some? && repeat {
        result := s.previousResult.value;
      } else {
        result := DiceOutcome(d1, d2, d3);
        s.previousResult := Some(result);
      }
      eco.balances, eco.leaderboard := Settle(eco.balances, eco.leaderboard, s.bets, result);
      active := active - {s.chatId};
    }
  }
}
