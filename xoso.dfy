/** Xổ số: a 60-second lottery per chat. Players pick up to five numbers in
    1..20 with /chon; at the end one to ten numbers are drawn (repeats allowed)
    and every drawn value a player picked is one win for that player. */
module XoSo {
  import opened Options

  const XosoMin := 1
  const XosoMax := 20
  const MaxChoices := 5
  const SessionSeconds := 60
  const MaxDrawLength := 10

  predicate InRange(v: int) { XosoMin <= v <= XosoMax }

  /** The tokens of a /chon argument after `int(s)`: None where `int` raises. */
  type Tokens = seq<Option<int>>

  /** The numbers /chon keeps: tokens that parse as integers in 1..20, in their
      order, with repeats kept. */
  function KeepInRange(tokens: Tokens): (nums: seq<int>)
    ensures |nums| <= |tokens|
    ensures forall v :: v in nums ==> InRange(v)
    ensures forall v :: multiset(nums)[v] == if InRange(v) then multiset(tokens)[Some(v)] else 0
  {
    if tokens == [] then []
    else
      var init, t := tokens[..|tokens| - 1], tokens[|tokens| - 1];
      assert tokens == init + [t];
      var rest := KeepInRange(init);
      if t.Some? && InRange(t.value) then rest + [t.value] else rest
  }

  /** Picks may repeat a number: /chon 3,3 keeps both threes. */
  lemma RepeatedPicksKept()
    ensures KeepInRange([Some(3), Some(3), None, Some(21)]) == [3, 3]
  {
  }

  // ----- The picks dictionary -----

  /** One `picks[uid] = nums` entry; entries are kept in insertion order. */
  datatype Entry = Entry(uid: int, nums: seq<int>)

  /** Dictionary keys are unique. */
  predicate Keyed(picks: seq<Entry>)
  {
    forall i, j :: 0 <= i < j < |picks| ==> picks[i].uid != picks[j].uid
  }

  /** `picks.get(uid)` */
  function Lookup(picks: seq<Entry>, uid: int): (r: Option<seq<int>>)
    ensures r.None? <==> forall i :: 0 <= i < |picks| ==> picks[i].uid != uid
  {
    if picks == [] then None
    else if picks[0].uid == uid then Some(picks[0].nums)
    else Lookup(picks[1..], uid)
  }

  /** In a dictionary every stored entry is what a lookup of its key returns. */
  lemma {:induction false} LookupAt(picks: seq<Entry>, i: nat)
    requires Keyed(picks) && i < |picks|
    ensures Lookup(picks, picks[i].uid) == Some(picks[i].nums)
  {
    if i > 0 {
      assert Keyed(picks[1..]) && picks[1..][i - 1] == picks[i];
      LookupAt(picks[1..], i - 1);
    }
  }

  /** `picks[uid] = nums`: a user already present keeps their place and has
      their numbers replaced; a new user is added at the end. */
  function Assign(picks: seq<Entry>, uid: int, nums: seq<int>): (r: seq<Entry>)
    requires Keyed(picks)
    ensures Keyed(r)
    ensures |r| == if Lookup(picks, uid).Some? then |picks| else |picks| + 1
    ensures forall k :: 0 <= k < |picks| ==> r[k].uid == picks[k].uid
    ensures |r| > |picks| ==> r[|picks|] == Entry(uid, nums)
  {
    if picks == [] then [Entry(uid, nums)]
    else if picks[0].uid == uid then
      [Entry(uid, nums)] + picks[1..]
    else
      assert Keyed(picks[1..]);
      [picks[0]] + Assign(picks[1..], uid, nums)
  }

  /** After `picks[uid] = nums` a lookup of `uid` gives `nums` and every other
      user's lookup is what it was. */
  lemma {:induction false} AssignLookup(picks: seq<Entry>, uid: int, nums: seq<int>, u: int)
    requires Keyed(picks)
    ensures Lookup(Assign(picks, uid, nums), u) == if u == uid then Some(nums) else Lookup(picks, u)
  {
    if picks != [] && picks[0].uid != uid {
      assert Keyed(picks[1..]);
      assert Assign(picks, uid, nums)[1..] == Assign(picks[1..], uid, nums);
      AssignLookup(picks[1..], uid, nums, u);
    }
  }

  /** What /chon does to the picks once a running session and an argument are
      there: None (nothing stored) unless one to five numbers survive the
      filter; otherwise they replace that user's picks and nobody else's. */
  function Choose(picks: seq<Entry>, uid: int, tokens: Tokens): (r: Option<seq<Entry>>)
    requires Keyed(picks)
    ensures r.Some? <==> 1 <= |KeepInRange(tokens)| <= MaxChoices
    ensures r.Some? ==> Keyed(r.value) && Lookup(r.value, uid) == Some(KeepInRange(tokens))
    ensures r.Some? ==> forall u :: u != uid ==> Lookup(r.value, u) == Lookup(picks, u)
    ensures r.Some? ==> forall v :: v in Lookup(r.value, uid).value ==> InRange(v)
  {
    var nums := KeepInRange(tokens);
    if |nums| == 0 || |nums| > MaxChoices then None
    else
      var r := Assign(picks, uid, nums);
      assert forall u :: Lookup(r, u) == if u == uid then Some(nums) else Lookup(picks, u) by {
        forall u ensures Lookup(r, u) == if u == uid then Some(nums) else Lookup(picks, u) {
          AssignLookup(picks, uid, nums, u);
        }
      }
      Some(r)
  }

  // ----- Matching -----

  /** One `(uid, r)` line of the result announcement. */
  datatype Win = Win(uid: int, value: int)

  /** Number of positions of `results` holding a value in `nums`. */
  function MatchCount(nums: seq<int>, results: seq<int>): nat
  {
    if results == [] then 0
    else (if results[0] in nums then 1 else 0) + MatchCount(nums, results[1..])
  }

  /** The inner loop's announcements: one win per drawn value found among
      the user's picks, in draw order. */
  function Hits(uid: int, nums: seq<int>, results: seq<int>): seq<Win>
  {
    if results == [] then []
    else (if results[0] in nums then [Win(uid, results[0])] else []) + Hits(uid, nums, results[1..])
  }

  /** Every participant's announcements, in dictionary order. */
  function Winners(picks: seq<Entry>, results: seq<int>): seq<Win>
  {
    if picks == [] then [] else Hits(picks[0].uid, picks[0].nums, results) + Winners(picks[1..], results)
  }

  /** Number of announcement lines naming `uid`. */
  function WinsOf(wins: seq<Win>, uid: int): nat
  {
    if wins == [] then 0 else (if wins[0].uid == uid then 1 else 0) + WinsOf(wins[1..], uid)
  }

  lemma {:induction false} WinsOfAppend(a: seq<Win>, b: seq<Win>, uid: int)
    ensures WinsOf(a + b, uid) == WinsOf(a, uid) + WinsOf(b, uid)
  {
    if a == [] {
      assert a + b == b;
    } else {
      assert (a + b)[0] == a[0] && (a + b)[1..] == a[1..] + b;
      WinsOfAppend(a[1..], b, uid);
    }
  }

  lemma {:induction false} HitsCount(uid: int, nums: seq<int>, results: seq<int>, u: int)
    ensures WinsOf(Hits(uid, nums, results), u) == if u == uid then MatchCount(nums, results) else 0
  {
    if results != [] {
      var head := if results[0] in nums then [Win(uid, results[0])] else [];
      WinsOfAppend(head, Hits(uid, nums, results[1..]), u);
      HitsCount(uid, nums, results[1..], u);
    }
  }

  /** A participant wins once per drawn position whose value they picked (a
      value drawn twice counts twice); someone without picks never wins. */
  lemma {:induction false} WinnerCount(picks: seq<Entry>, results: seq<int>, uid: int)
    requires Keyed(picks)
    ensures WinsOf(Winners(picks, results), uid)
            == match Lookup(picks, uid) case None => 0 case Some(nums) => MatchCount(nums, results)
  {
    if picks != [] {
      assert Keyed(picks[1..]);
      WinsOfAppend(Hits(picks[0].uid, picks[0].nums, results), Winners(picks[1..], results), uid);
      HitsCount(picks[0].uid, picks[0].nums, results, uid);
      WinnerCount(picks[1..], results, uid);
      if picks[0].uid == uid {
        assert Lookup(picks[1..], uid).None?;
      }
    }
  }

  /** Only membership of a drawn value in the picks matters, so repeating a
      pick does not multiply the wins. */
  lemma {:induction false} DuplicatePicksDoNotMultiply(nums1: seq<int>, nums2: seq<int>, results: seq<int>)
    requires forall v :: v in nums1 <==> v in nums2
    ensures MatchCount(nums1, results) == MatchCount(nums2, results)
  {
    if results != [] {
      DuplicatePicksDoNotMultiply(nums1, nums2, results[1..]);
    }
  }

  lemma {:induction false} HitsSound(uid: int, nums: seq<int>, results: seq<int>)
    ensures forall w :: w in Hits(uid, nums, results) ==> w.uid == uid && w.value in results && w.value in nums
  {
    if results != [] {
      HitsSound(uid, nums, results[1..]);
    }
  }

  /** Every announced win names a participant and a drawn value among that
      participant's picks. */
  lemma {:induction false} WinnersSound(picks: seq<Entry>, results: seq<int>)
    requires Keyed(picks)
    ensures forall w :: w in Winners(picks, results) ==>
              w.value in results && Lookup(picks, w.uid).Some? && w.value in Lookup(picks, w.uid).value
  {
    if picks != [] {
      assert Keyed(picks[1..]);
      HitsSound(picks[0].uid, picks[0].nums, results);
      WinnersSound(picks[1..], results);
      forall w | w in Winners(picks[1..], results)
        ensures w.uid != picks[0].uid
      {
        var i :| 0 <= i < |picks[1..]| && picks[1..][i].uid == w.uid;
        assert picks[i + 1].uid == w.uid;
      }
    }
  }

  /** Draw [3, 3, 7] against picks [3, 9]: two wins, both for the value 3. */
  lemma ScenarioDoubleDraw(uid: int)
    ensures Hits(uid, [3, 9], [3, 3, 7]) == [Win(uid, 3), Win(uid, 3)]
    ensures MatchCount([3, 9], [3, 3, 7]) == 2
  {
    assert [3, 3, 7][1..] == [3, 7] && [3, 7][1..] == [7] && [7][1..] == [];
    assert 3 in [3, 9] && 7 !in [3, 9];
    assert Hits(uid, [3, 9], [7]) == [];
    assert Hits(uid, [3, 9], [3, 7]) == [Win(uid, 3)];
  }

  /** The inner loop of the announcement: a win for each drawn value, in
      draw order, that is among `nums`. */
  method AnnounceHits(uid: int, nums: seq<int>, results: seq<int>) returns (wins: seq<Win>)
    ensures wins == Hits(uid, nums, results)
  {
    wins := [];
    var j := 0;
    while j < |results|
      invariant 0 <= j <= |results|
      invariant wins + Hits(uid, nums, results[j..]) == Hits(uid, nums, results)
    {
      var head := if results[j] in nums then [Win(uid, results[j])] else [];
      assert results[j..][1..] == results[j + 1..];
      ghost var rest := Hits(uid, nums, results[j + 1..]);
      assert Hits(uid, nums, results[j..]) == head + rest;
      assert wins + (head + rest) == (wins + head) + rest;
      if results[j] in nums {
        wins := wins + [Win(uid, results[j])];
      } else {
        assert wins + head == wins;
      }
      j := j + 1;
    }
    assert results[|results|..] == [];
  }

  /** The matching loops of the lottery's end: for each participant in
      dictionary order, that participant's hits. */
  method Announce(picks: seq<Entry>, results: seq<int>) returns (winners: seq<Win>)
    ensures winners == Winners(picks, results)
  {
    winners := [];
    var i := 0;
    while i < |picks|
      invariant 0 <= i <= |picks|
      invariant winners + Winners(picks[i..], results) == Winners(picks, results)
    {
      var hits := AnnounceHits(picks[i].uid, picks[i].nums, results);
      assert picks[i..][1..] == picks[i + 1..];
      assert Winners(picks[i..], results) == hits + Winners(picks[i + 1..], results);
      ghost var rest := Winners(picks[i + 1..], results);
      assert winners + (hits + rest) == (winners + hits) + rest;
      winners := winners + hits;
      i := i + 1;
    }
    assert picks[|picks|..] == [];
  }

  /** What `randint` guarantees of the draw: 1..10 values, each in 1..20. */
  predicate ValidDraw(results: seq<int>)
  {
    1 <= |results| <= MaxDrawLength && forall k :: 0 <= k < |results| ==> InRange(results[k])
  }

  /** The lottery's polling loop: the index of the first clock reading at or
      after the deadline, or None while it is still waiting. */
  method RunXoSoCountdown(endTime: int, clock: seq<int>) returns (closedAt: Option<nat>)
    ensures closedAt.Some? ==> closedAt.value < |clock| && clock[closedAt.value] >= endTime
    ensures closedAt.Some? ==> forall j :: 0 <= j < closedAt.value ==> clock[j] < endTime
    ensures closedAt.None? ==> forall j :: 0 <= j < |clock| ==> clock[j] < endTime
  {
    var i := 0;
    while i < |clock|
      invariant 0 <= i <= |clock|
      invariant forall j :: 0 <= j < i ==> clock[j] < endTime
    {
      if clock[i] >= endTime {
        return Some(i);
      }
      i := i + 1;
    }
    return None;
  }

  // ----- Sessions -----

  /** The state of one lottery (`XoSoSession`). */
  class XoSoSession {
    const chatId: int
    var picks: seq<Entry>
    var endTime: int
    var running: bool

    ghost predicate Valid()
      reads this
    {
      Keyed(picks)
    }

    /** The session /xoso opens: running, empty, ending SessionSeconds from now. */
    constructor Open(chatId: int, now: int)
      ensures Valid()
      ensures this.chatId == chatId && picks == [] && endTime == now + SessionSeconds && running
    {
      this.chatId := chatId;
      picks := [];
      endTime := now + SessionSeconds;
      running := true;
    }
  }

  datatype ChonOutcome = NoSession | Usage | Rejected | Chosen(nums: seq<int>)

  /** `active_xoso`: the current lottery of each chat. */
  class XoSoTable {
    var active: map<int, XoSoSession>

    ghost predicate Valid()
      reads this, active.Values
    {
      forall c :: c in active ==> active[c].chatId == c && active[c].Valid()
    }

    constructor ()
      ensures Valid() && active == map[]
    {
      active := map[];
    }

    /** /xoso: refused while the chat has a running lottery; otherwise a new
        session replaces whatever entry the chat had. */
    method Open(chat: int, now: int) returns (created: bool)
      requires Valid()
      modifies this
      ensures Valid()
      ensures created <==> !(chat in old(active) && old(active[chat].running))
      ensures !created ==> active == old(active)
      ensures created ==> chat in active && fresh(active[chat]) && active == old(active)[chat := active[chat]]
      ensures created ==> active[chat].picks == [] && active[chat].running && active[chat].endTime == now + SessionSeconds
    {
      if chat in active && active[chat].running {
        return false;
      }
      var s := new XoSoSession.Open(chat, now);
      active := active[chat := s];
      created := true;
    }

    /** /chon: `args` is None when the command has no argument, else the tokens
        of its first argument. The wager in the second argument is not stored. */
    method Chon(chat: int, uid: int, args: Option<Tokens>) returns (outcome: ChonOutcome)
      requires Valid()
      modifies if chat in active then {active[chat]} else {}
      ensures Valid()
      ensures outcome == NoSession <==> !(chat in active && old(active[chat].running))
      ensures outcome == Usage <==> chat in active && old(active[chat].running) && args.None?
      ensures outcome == Rejected <==>
                chat in active && old(active[chat].running) && args.Some?
                && Choose(old(active[chat].picks), uid, args.value).None?
      ensures outcome.Chosen? ==>
                args.Some? && outcome.nums == KeepInRange(args.value)
                && active[chat].picks == Choose(old(active[chat].picks), uid, args.value).value
                && active[chat].running && active[chat].endTime == old(active[chat].endTime)
      ensures !outcome.Chosen? && chat in active ==> unchanged(active[chat])
    {
      if !(chat in active && active[chat].running) {
        return NoSession;
      }
      if args.None? {
        return Usage;
      }
      var s := active[chat];
      var nums := KeepInRange(args.value);
      if |nums| == 0 || |nums| > MaxChoices {
        return Rejected;
      }
      s.picks := Assign(s.picks, uid, nums);
      outcome := Chosen(nums);
    }

    /** The end of the countdown task: match the draw against every entry, stop
        the session and drop the chat's entry. */
    method Draw(s: XoSoSession, results: seq<int>) returns (winners: seq<Win>)
      requires Valid() && s.Valid()
      requires ValidDraw(results)
      modifies this, s
      ensures Valid()
      ensures winners == Winners(s.picks, results)
      ensures forall w :: w in winners ==> InRange(w.value) && Lookup(s.picks, w.uid).Some?
      ensures forall u :: WinsOf(winners, u) == match Lookup(s.picks, u) case None => 0 case Some(nums) => MatchCount(nums, results)
      ensures s.picks == old(s.picks) && !s.running && s.endTime == old(s.endTime)
      ensures active == old(active) - {s.chatId}
    {
      winners := Announce(s.picks, results);
      WinnersSound(s.picks, results);
      forall u ensures WinsOf(winners, u) == match Lookup(s.picks, u) case None => 0 case Some(nums) => MatchCount(nums, results) {
        WinnerCount(s.picks, results, u);
      }
      s.running := false;
      active := active - {s.chatId};
    }
  }
}
