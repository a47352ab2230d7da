/** The bot's two process-wide account maps: `balances` (spendable money) and
    `leaderboard` (cumulative net winnings). Both are Python `defaultdict(int)`s,
    so a missing account reads as 0 and `+=` on a missing account creates it. */
module Ledger {
  import opened Options

  /** Money granted by /dangky. */
  const RegistrationGrant := 100_000

  /** `m.get(uid, 0)`: the value of an account, 0 when it has no entry. */
  function Get(m: map<int, int>, uid: int): int
  {
    if uid in m then m[uid] else 0
  }

  /** `m[uid] += delta` on a defaultdict: the entry is created at 0 first. */
  function Adjust(m: map<int, int>, uid: int, delta: int): (r: map<int, int>)
    ensures r.Keys == m.Keys + {uid}
    ensures Get(r, uid) == Get(m, uid) + delta
    ensures forall u :: u != uid ==> Get(r, u) == Get(m, u)
  {
    m[uid := Get(m, uid) + delta]
  }

  /** The funds check and debit done when a Tài/Xỉu bet is placed: refused when
      the balance is below the stake, otherwise exactly the stake is taken from
      that one account. The check is the only guard, so the balance it leaves is
      never negative. */
  function Debit(balances: map<int, int>, uid: int, amount: int): (r: Option<map<int, int>>)
    ensures r.None? <==> Get(balances, uid) < amount
    ensures r.Some? ==> Get(r.value, uid) == Get(balances, uid) - amount >= 0
    ensures r.Some? ==> r.value.Keys == balances.Keys + {uid}
    ensures r.Some? ==> forall u :: u != uid ==> Get(r.value, u) == Get(balances, u)
  {
    if Get(balances, uid) < amount then None else Some(Adjust(balances, uid, -amount))
  }

  /** /dangky: refused while the account holds a positive balance; otherwise the
      balance is set (not added) to the grant and no other account changes. */
  function Registration(balances: map<int, int>, uid: int): (r: Option<map<int, int>>)
    ensures r.Some? <==> Get(balances, uid) <= 0
    ensures r.Some? ==> Get(r.value, uid) == RegistrationGrant
    ensures r.Some? ==> r.value.Keys == balances.Keys + {uid}
    ensures r.Some? ==> forall u :: u != uid ==> Get(r.value, u) == Get(balances, u)
  {
    if Get(balances, uid) > 0 then None else Some(balances[uid := RegistrationGrant])
  }

  /** A registration that succeeded cannot be repeated until the money is gone. */
  lemma RegistrationOnce(balances: map<int, int>, uid: int)
    requires Registration(balances, uid).Some?
    ensures Registration(Registration(balances, uid).value, uid).None?
  {
  }

  /** The balances and leaderboard maps, shared by every game. */
  class Economy {
    var balances: map<int, int>
    var leaderboard: map<int, int>

    constructor ()
      ensures balances == map[] && leaderboard == map[]
    {
      balances := map[];
      leaderboard := map[];
    }

    /** /dangky and its menu button. */
    method Register(uid: int) returns (ok: bool)
      modifies this
      ensures ok <==> Get(old(balances), uid) <= 0
      ensures balances == if ok then Registration(old(balances), uid).value else old(balances)
      ensures leaderboard == old(leaderboard)
    {
      if Get(balances, uid) > 0 {
        return false;
      }
      balances := balances[uid := RegistrationGrant];
      ok := true;
    }
  }
}
