/** Free Fire lobbies: a roster per chat that players join and leave, a start
    guard, and the automatic match (plane, loot, combat, survivor). */
module FreeFire {
  import opened Options
  import opened Combat

  /** "tc" (team deathmatch) balances teams on join; every other mode string,
      "st" included, assigns no team. */
  datatype Mode = Solo | Team

  datatype MapName = LangThong | ThapDongHo | CongTroi | KhuTrungCu | DaoQuanSu

  /** The loot draws for one player: `choice(["m500", "g18"])` and, when
      `random() < 0.85`, `choice` among the five guns. */
  datatype LootDraw = LootDraw(pistol: Pistol, gun: Option<Gun>)

  /** The draws of one combat iteration. `random.choice(xs)` is modelled as
      `xs[k % |xs|]`, so the raw draws `attacker` and `target` may be any
      natural numbers; `lucky` is `random() < 0.2`. */
  datatype Shot = Shot(attacker: nat, target: nat, damage: int, lucky: bool)

  /** `uid in lobby.players` */
  predicate Member(ps: seq<Player>, uid: int)
  {
    exists i :: 0 <= i < |ps| && ps[i].uid == uid
  }

  // ----- Team balancing -----

  /** Number of roster entries assigned to team `t` (the creator and solo
      players have no team and are not counted). */
  function TeamCount(ps: seq<Player>, t: nat): nat
  {
    if ps == [] then 0
    else TeamCount(ps[..|ps| - 1], t) + if ps[|ps| - 1].team == Some(t) then 1 else 0
  }

  /** The team a newcomer joins: the smaller one, team 0 on a tie. */
  function NextTeam(ps: seq<Player>): (r: nat)
    ensures r <= 1
    ensures TeamCount(ps, r) <= TeamCount(ps, 1 - r)
    ensures TeamCount(ps, 0) == TeamCount(ps, 1) ==> r == 0
  {
    if TeamCount(ps, 0) <= TeamCount(ps, 1) then 0 else 1
  }

  /** Assigned team sizes differ by at most one. */
  predicate Balanced(ps: seq<Player>)
  {
    -1 <= TeamCount(ps, 0) - TeamCount(ps, 1) <= 1
  }

  lemma TeamCountAppend(ps: seq<Player>, p: Player, t: nat)
    ensures TeamCount(ps + [p], t) == TeamCount(ps, t) + if p.team == Some(t) then 1 else 0
  {
    assert (ps + [p])[..|ps|] == ps;
  }

  /** The roster after a join: unchanged for a player already in it, otherwise
      the new player is added at the end, on the smaller team (team 0 on a tie)
      in team mode and on no team otherwise. Team sizes that were balanced stay
      balanced. */
  function Joined(ps: seq<Player>, uid: int, mode: Mode): (r: seq<Player>)
    ensures Member(ps, uid) ==> r == ps
    ensures !Member(ps, uid) ==> |r| == |ps| + 1 && r[..|ps|] == ps && r[|ps|].uid == uid
    ensures !Member(ps, uid) ==> r[|ps|] == NewPlayer(uid, if mode == Team then Some(NextTeam(ps)) else None)
    ensures !Member(ps, uid) && mode == Team ==>
              r[|ps|].team == Some(NextTeam(ps))
              && TeamCount(ps, NextTeam(ps)) <= TeamCount(ps, 1 - NextTeam(ps))
    ensures mode == Solo ==> TeamCount(r, 0) == TeamCount(ps, 0) && TeamCount(r, 1) == TeamCount(ps, 1)
    ensures Balanced(ps) ==> Balanced(r)
    ensures DistinctUids(ps) ==> DistinctUids(r)
    ensures HpInvariant(ps) ==> HpInvariant(r)
  {
    if Member(ps, uid) then ps
    else
      var p := NewPlayer(uid, if mode == Team then Some(NextTeam(ps)) else None);
      TeamCountAppend(ps, p, 0);
      TeamCountAppend(ps, p, 1);
      assert (ps + [p])[..|ps|] == ps;
      ps + [p]
  }

  /** The roster after `players.pop(uid)`: every entry but `uid`'s, in order. */
  function Without(ps: seq<Player>, uid: int): (r: seq<Player>)
    ensures |r| <= |ps|
    ensures forall k :: 0 <= k < |r| ==> r[k].uid != uid
  {
    if ps == [] then []
    else (if ps[0].uid == uid then [] else [ps[0]]) + Without(ps[1..], uid)
  }

  /** Only entries of the old roster stay after a leave, and none is `uid`'s. */
  lemma {:induction false} WithoutSubset(ps: seq<Player>, uid: int)
    ensures forall k :: 0 <= k < |Without(ps, uid)| ==>
              Without(ps, uid)[k] in ps && Without(ps, uid)[k].uid != uid
  {
    if ps != [] {
      WithoutSubset(ps[1..], uid);
      var r := Without(ps, uid);
      var rest := Without(ps[1..], uid);
      forall k | 0 <= k < |r| ensures r[k] in ps && r[k].uid != uid {
        if ps[0].uid != uid && k == 0 {
        } else {
          var j := if ps[0].uid == uid then k else k - 1;
          assert r[k] == rest[j];
          assert rest[j] in ps[1..];
        }
      }
    }
  }

  /** Every entry that is not `uid`'s stays after a leave. */
  lemma {:induction false} WithoutKeeps(ps: seq<Player>, uid: int)
    ensures forall p :: p in ps && p.uid != uid ==> p in Without(ps, uid)
  {
    if ps != [] {
      WithoutKeeps(ps[1..], uid);
      forall p | p in ps && p.uid != uid ensures p in Without(ps, uid) {
        if p != ps[0] {
          assert p in ps[1..];
        }
      }
    }
  }

  /** After a leave, exactly the other players are still members. */
  lemma WithoutMembers(ps: seq<Player>, uid: int, u: int)
    ensures Member(Without(ps, uid), u) <==> Member(ps, u) && u != uid
  {
    var r := Without(ps, uid);
    WithoutSubset(ps, uid);
    WithoutKeeps(ps, uid);
    if Member(r, u) {
      var k :| 0 <= k < |r| && r[k].uid == u;
      var i :| 0 <= i < |ps| && ps[i] == r[k];
    }
    if Member(ps, u) && u != uid {
      var i :| 0 <= i < |ps| && ps[i].uid == u;
      assert ps[i] in r;
      var k :| 0 <= k < |r| && r[k] == ps[i];
    }
  }

  lemma MemberFirst(ps: seq<Player>, uid: int)
    requires ps != []
    ensures Member(ps, uid) <==> ps[0].uid == uid || Member(ps[1..], uid)
  {
    if Member(ps, uid) && ps[0].uid != uid {
      var i :| 0 <= i < |ps| && ps[i].uid == uid;
      assert ps[1..][i - 1].uid == uid;
    }
    if Member(ps[1..], uid) {
      var i :| 0 <= i < |ps[1..]| && ps[1..][i].uid == uid;
      assert ps[i + 1].uid == uid;
    }
  }

  /** Leaving shortens the roster by exactly one when the player was in it
      (user ids being distinct) and leaves it as it was otherwise. */
  lemma {:induction false} WithoutLength(ps: seq<Player>, uid: int)
    requires DistinctUids(ps)
    ensures |Without(ps, uid)| == if Member(ps, uid) then |ps| - 1 else |ps|
    ensures !Member(ps, uid) ==> Without(ps, uid) == ps
  {
    if ps != [] {
      assert DistinctUids(ps[1..]);
      WithoutLength(ps[1..], uid);
      MemberFirst(ps, uid);
      if ps[0].uid == uid {
        forall i | 0 <= i < |ps[1..]| ensures ps[1..][i].uid != uid {
          assert ps[1..][i] == ps[i + 1];
        }
      } else {
        assert [ps[0]] + ps[1..] == ps;
      }
    }
  }

  /** Leaving keeps the roster a dictionary. */
  lemma {:induction false} WithoutDistinct(ps: seq<Player>, uid: int)
    requires DistinctUids(ps)
    ensures DistinctUids(Without(ps, uid))
  {
    if ps != [] {
      var rest := Without(ps[1..], uid);
      assert DistinctUids(ps[1..]);
      WithoutDistinct(ps[1..], uid);
      WithoutSubset(ps[1..], uid);
      if ps[0].uid != uid {
        var r := [ps[0]] + rest;
        forall i, j | 0 <= i < j < |r| ensures r[i].uid != r[j].uid {
          if i == 0 {
            assert r[j] == rest[j - 1] && rest[j - 1] in ps[1..];
            var k :| 0 <= k < |ps[1..]| && ps[1..][k] == rest[j - 1];
            assert ps[k + 1] == r[j];
          } else {
            assert r[i] == rest[i - 1] && r[j] == rest[j - 1];
          }
        }
      }
    }
  }

  /** Leaving keeps every living player's hit points positive. */
  lemma WithoutHp(ps: seq<Player>, uid: int)
    requires HpInvariant(ps)
    ensures HpInvariant(Without(ps, uid))
  {
    var r := Without(ps, uid);
    WithoutSubset(ps, uid);
    forall k | 0 <= k < |r| && r[k].alive ensures r[k].hp > 0 {
      var i :| 0 <= i < |ps| && ps[i] == r[k];
    }
  }

  /** A team-mode join of a newcomer appends them on the team NextTeam picks. */
  lemma JoinTeamStep(ps: seq<Player>, uid: int)
    requires !Member(ps, uid)
    ensures Joined(ps, uid, Team) == ps + [NewPlayer(uid, Some(NextTeam(ps)))]
  {
  }

  /** Four players joining a team-mode room after its creator get teams
      0, 1, 0, 1; the creator stays without a team. */
  lemma ScenarioFourJoins(c: int, u1: int, u2: int, u3: int, u4: int)
    requires c != u1 && c != u2 && c != u3 && c != u4
    requires u1 != u2 && u1 != u3 && u1 != u4 && u2 != u3 && u2 != u4 && u3 != u4
    ensures var ps := Joined(Joined(Joined(Joined([NewPlayer(c, None)], u1, Team), u2, Team), u3, Team), u4, Team);
            ps == [NewPlayer(c, None), NewPlayer(u1, Some(0)), NewPlayer(u2, Some(1)),
                   NewPlayer(u3, Some(0)), NewPlayer(u4, Some(1))]
  {
    var p0 := [NewPlayer(c, None)];
    assert p0[..0] == [];
    JoinTeamStep(p0, u1);
    var p1 := p0 + [NewPlayer(u1, Some(0))];
    TeamCountAppend(p0, NewPlayer(u1, Some(0)), 0);
    TeamCountAppend(p0, NewPlayer(u1, Some(0)), 1);
    assert !Member(p1, u2);
    JoinTeamStep(p1, u2);
    var p2 := p1 + [NewPlayer(u2, Some(1))];
    TeamCountAppend(p1, NewPlayer(u2, Some(1)), 0);
    TeamCountAppend(p1, NewPlayer(u2, Some(1)), 1);
    assert !Member(p2, u3);
    JoinTeamStep(p2, u3);
    var p3 := p2 + [NewPlayer(u3, Some(0))];
    TeamCountAppend(p2, NewPlayer(u3, Some(0)), 0);
    TeamCountAppend(p2, NewPlayer(u3, Some(0)), 1);
    assert !Member(p3, u4);
    JoinTeamStep(p3, u4);
  }

  /** The two team-1 players leaving the roster of ScenarioFourJoins leave
      the creator and the two team-0 players, in order. */
  lemma LeaveTwo(c: int, u1: int, u2: int, u3: int, u4: int)
    requires c != u2 && u1 != u2 && u3 != u2 && u4 != u2
    requires c != u4 && u1 != u4 && u3 != u4
    ensures var ps := [NewPlayer(c, None), NewPlayer(u1, Some(0)), NewPlayer(u2, Some(1)),
                       NewPlayer(u3, Some(0)), NewPlayer(u4, Some(1))];
            Without(Without(ps, u2), u4) == [NewPlayer(c, None), NewPlayer(u1, Some(0)), NewPlayer(u3, Some(0))]
  {
    var p0, p1, p2, p3, p4 := NewPlayer(c, None), NewPlayer(u1, Some(0)), NewPlayer(u2, Some(1)),
                              NewPlayer(u3, Some(0)), NewPlayer(u4, Some(1));
    assert Without([p4], u2) == [p4] by { assert [p4][1..] == []; }
    assert Without([p3, p4], u2) == [p3, p4] by { assert [p3, p4][1..] == [p4]; }
    assert Without([p2, p3, p4], u2) == [p3, p4] by { assert [p2, p3, p4][1..] == [p3, p4]; }
    assert Without([p1, p2, p3, p4], u2) == [p1, p3, p4] by { assert [p1, p2, p3, p4][1..] == [p2, p3, p4]; }
    assert Without([p0, p1, p2, p3, p4], u2) == [p0, p1, p3, p4] by { assert [p0, p1, p2, p3, p4][1..] == [p1, p2, p3, p4]; }
    assert Without([p4], u4) == [] by { assert [p4][1..] == []; }
    assert Without([p3, p4], u4) == [p3] by { assert [p3, p4][1..] == [p4]; }
    assert Without([p1, p3, p4], u4) == [p1, p3] by { assert [p1, p3, p4][1..] == [p3, p4]; }
    assert Without([p0, p1, p3, p4], u4) == [p0, p1, p3] by { assert [p0, p1, p3, p4][1..] == [p1, p3, p4]; }
  }

  /** The creator and two team-0 players: team 0 is two ahead. */
  lemma TwoZeroUnbalanced(c: int, u1: int, u3: int)
    ensures !Balanced([NewPlayer(c, None), NewPlayer(u1, Some(0)), NewPlayer(u3, Some(0))])
  {
    var w := [NewPlayer(c, None), NewPlayer(u1, Some(0)), NewPlayer(u3, Some(0))];
    assert w[..2] == [NewPlayer(c, None), NewPlayer(u1, Some(0))];
    assert w[..2][..1] == [NewPlayer(c, None)];
    assert w[..2][..1][..0] == [];
    assert TeamCount(w[..2][..1], 0) == 0 && TeamCount(w[..2][..1], 1) == 0;
    assert TeamCount(w[..2], 0) == 1 && TeamCount(w[..2], 1) == 0;
    assert TeamCount(w, 0) == 2 && TeamCount(w, 1) == 0;
  }

  /** Greedy balancing holds only while nobody leaves: after the joins of
      ScenarioFourJoins, the two team-1 players leaving puts the teams two
      apart. */
  lemma LeaveCanUnbalance(c: int, u1: int, u2: int, u3: int, u4: int)
    requires c != u1 && c != u2 && c != u3 && c != u4
    requires u1 != u2 && u1 != u3 && u1 != u4 && u2 != u3 && u2 != u4 && u3 != u4
    ensures var ps := Joined(Joined(Joined(Joined([NewPlayer(c, None)], u1, Team), u2, Team), u3, Team), u4, Team);
            Balanced(ps) && !Balanced(Without(Without(ps, u2), u4))
  {
    var ps := Joined(Joined(Joined(Joined([NewPlayer(c, None)], u1, Team), u2, Team), u3, Team), u4, Team);
    assert [NewPlayer(c, None)][..0] == [];
    assert Balanced([NewPlayer(c, None)]);
    ScenarioFourJoins(c, u1, u2, u3, u4);
    LeaveTwo(c, u1, u2, u3, u4);
    TwoZeroUnbalanced(c, u1, u3);
  }

  // ----- Combat bookkeeping -----

  /** The positions an attacker may shoot at: every other player still able to
      fight, in roster order. */
  function Targets(ps: seq<Player>, attacker: int): (r: seq<nat>)
    ensures forall k :: 0 <= k < |r| ==> r[k] < |ps| && ps[r[k]].uid != attacker && Selectable(ps[r[k]])
    ensures forall j :: 0 <= j < |ps| && ps[j].uid != attacker && Selectable(ps[j]) ==> j in r
  {
    IndicesWhere(ps, (p: Player) => p.uid != attacker && Selectable(p))
  }

  /** With two or more players able to fight, an attacker among them always
      has a target, so the loop's "no targets" exit is never taken. */
  lemma TargetExists(ps: seq<Player>, a: nat)
    requires DistinctUids(ps) && a < |ps|
    requires |IndicesWhere(ps, Selectable)| >= 2
    ensures |Targets(ps, ps[a].uid)| > 0
  {
    var alive := IndicesWhere(ps, Selectable);
    var other := if alive[0] == a then alive[1] else alive[0];
    assert other != a && ps[other].uid != ps[a].uid && Selectable(ps[other]);
    assert other in Targets(ps, ps[a].uid);
  }

  /** `ps` is `p0` after some shots: same players in the same order, only hit
      points, alive flags and kill counters moved, hit points only down, kills
      only up, nobody revived. */
  predicate ShotsOnly(p0: seq<Player>, ps: seq<Player>)
  {
    && |ps| == |p0|
    && (forall i :: 0 <= i < |ps| ==> ps[i] == p0[i].(hp := ps[i].hp, alive := ps[i].alive, kills := ps[i].kills))
    && (forall i :: 0 <= i < |ps| ==> ps[i].hp <= p0[i].hp && p0[i].kills <= ps[i].kills)
    && (forall i :: 0 <= i < |ps| ==> ps[i].alive ==> p0[i].alive)
  }

  /** Someone on the roster is alive. */
  predicate AnyAlive(ps: seq<Player>)
  {
    ps != [] && (ps[0].alive || AnyAlive(ps[1..]))
  }

  /** A roster with a living player at any position has someone alive. */
  lemma {:induction false} AliveAt(ps: seq<Player>, i: nat)
    requires i < |ps| && ps[i].alive
    ensures AnyAlive(ps)
  {
    if i > 0 {
      AliveAt(ps[1..], i - 1);
    }
  }

  /** The survivor exists exactly when someone is alive. */
  lemma {:induction false} AnyAliveWinner(ps: seq<Player>)
    ensures AnyAlive(ps) <==> Winner(ps).Some?
  {
    if ps != [] {
      AnyAliveWinner(ps[1..]);
    }
  }

  /** A shot by a living attacker keeps ShotsOnly, and the attacker survives it. */
  lemma ShootKeepsShotsOnly(p0: seq<Player>, ps: seq<Player>, a: nat, t: nat, dmg: int, lucky: bool)
    requires ShotsOnly(p0, ps)
    requires a < |ps| && t < |ps| && a != t && ps[a].alive && dmg >= 0
    ensures ShotsOnly(p0, Shoot(ps, a, t, dmg, lucky))
    ensures DistinctUids(ps) ==> DistinctUids(Shoot(ps, a, t, dmg, lucky))
    ensures AnyAlive(Shoot(ps, a, t, dmg, lucky))
  {
    var r := Shoot(ps, a, t, dmg, lucky);
    AliveAt(r, a);
  }

  lemma ShotsOnlyTransitive(p0: seq<Player>, p1: seq<Player>, p2: seq<Player>)
    requires ShotsOnly(p0, p1) && ShotsOnly(p1, p2)
    ensures ShotsOnly(p0, p2)
  {
  }

  /** The two positions of a round's shot: the attacker is `choice(alive)`,
      drawn by `shot.attacker` among the players able to fight, and the target
      is `choice(targets)`, drawn by `shot.target` among the attacker's
      targets (there always is one). */
  function Pick(ps: seq<Player>, shot: Shot): (p: (nat, nat))
    requires DistinctUids(ps) && |IndicesWhere(ps, Selectable)| >= 2
    ensures p.0 < |ps| && p.1 < |ps| && p.0 != p.1
    ensures Selectable(ps[p.0]) && Selectable(ps[p.1]) && ps[p.0].uid != ps[p.1].uid
    ensures p.1 in Targets(ps, ps[p.0].uid)
  {
    var alive := IndicesWhere(ps, Selectable);
    var a := alive[shot.attacker % |alive|];
    TargetExists(ps, a);
    var targets := Targets(ps, ps[a].uid);
    (a, targets[shot.target % |targets|])
  }

  /** One iteration of the combat loop once at least two players can fight:
      the one shot of the pair Pick draws. Only shots' effects appear, the
      roster stays a dictionary, and the total hit points of the living
      strictly drop without going negative. */
  function Round(ps: seq<Player>, shot: Shot): (r: seq<Player>)
    requires DistinctUids(ps) && HpInvariant(ps)
    requires |IndicesWhere(ps, Selectable)| >= 2 && shot.damage > 0
    ensures r == Shoot(ps, Pick(ps, shot).0, Pick(ps, shot).1, shot.damage, shot.lucky)
    ensures DistinctUids(r) && HpInvariant(r)
    ensures ShotsOnly(ps, r) && AnyAlive(r)
    ensures 0 <= AliveHp(r) < AliveHp(ps)
  {
    var (a, t) := Pick(ps, shot);
    ShootShrinksAliveHp(ps, a, t, shot.damage, shot.lucky);
    ShootKeepsShotsOnly(ps, ps, a, t, shot.damage, shot.lucky);
    Shoot(ps, a, t, shot.damage, shot.lucky)
  }

  /** The combat loop from round `n` on: it stops once `clock(n)` reaches `end`
      or at most one player can fight, and otherwise plays round `n` and goes
      on. The result is the final roster and the number of rounds played.
      It always ends, whatever the clock does, since every round lowers the
      total hit points of the living; it ends with one of the two stop
      conditions holding, with only shots' effects on the roster, and with
      someone still alive if anyone was. */
  function Played(ps: seq<Player>, end: int, clock: nat -> int, shots: nat -> Shot, n: nat): (r: (seq<Player>, nat))
    requires DistinctUids(ps) && HpInvariant(ps)
    requires forall k :: MinDamage <= shots(k).damage <= MaxDamage
    ensures n <= r.1
    ensures clock(r.1) >= end || |IndicesWhere(r.0, Selectable)| <= 1
    ensures DistinctUids(r.0) && HpInvariant(r.0)
    ensures ShotsOnly(ps, r.0)
    ensures AnyAlive(ps) ==> AnyAlive(r.0)
    decreases AliveHp(ps)
  {
    if clock(n) >= end || |IndicesWhere(ps, Selectable)| <= 1 then (ps, n)
    else
      var next := Round(ps, shots(n));
      var r := Played(next, end, clock, shots, n + 1);
      ShotsOnlyTransitive(ps, next, r.0);
      r
  }

  // ----- Before the fight -----

  /** The roster after the plane phase: everyone has jumped, nothing else changed. */
  function AllJumped(ps: seq<Player>): (r: seq<Player>)
    ensures |r| == |ps|
    ensures forall i :: 0 <= i < |r| ==> r[i] == ps[i].(jumped := true)
  {
    if ps == [] then []
    else AllJumped(ps[..|ps| - 1]) + [ps[|ps| - 1].(jumped := true)]
  }

  /** The gun a loot draw adds, if any. */
  function Drawn(d: LootDraw): seq<Gun>
  {
    if d.gun.Some? then [d.gun.value] else []
  }

  /** The roster after looting: player `i` holds `draws[i]`'s pistol (so
      everyone holds exactly one) and has `draws[i]`'s optional gun appended
      to their guns; nothing else changed. */
  function Looted(ps: seq<Player>, draws: seq<LootDraw>): (r: seq<Player>)
    requires |draws| == |ps|
    ensures |r| == |ps|
    ensures forall i :: 0 <= i < |r| ==>
              r[i] == ps[i].(pistol := Some(draws[i].pistol), guns := ps[i].guns + Drawn(draws[i]))
  {
    if ps == [] then []
    else
      var k := |ps| - 1;
      Looted(ps[..k], draws[..k]) + [ps[k].(pistol := Some(draws[k].pistol), guns := ps[k].guns + Drawn(draws[k]))]
  }

  /** Jumping and looting revive nobody and kill nobody: a roster with a
      living player still has one afterwards. */
  lemma PreparedAlive(ps: seq<Player>, draws: seq<LootDraw>)
    requires |draws| == |ps| && AnyAlive(ps)
    ensures AnyAlive(Looted(AllJumped(ps), draws))
  {
    AnyAliveWinner(ps);
    AliveAt(Looted(AllJumped(ps), draws), Winner(ps).value);
  }

  /** Shots after jumping and looting leave everyone jumped and holding the
      pistol they looted. */
  lemma PreparedFields(ps: seq<Player>, draws: seq<LootDraw>, after: seq<Player>)
    requires |draws| == |ps| && ShotsOnly(Looted(AllJumped(ps), draws), after)
    ensures |after| == |ps|
    ensures forall i :: 0 <= i < |after| ==> after[i].jumped && after[i].pistol == Some(draws[i].pistol)
  {
  }

  // ----- The lobby -----

  /** `FFLobby`: one chat's Free Fire room. */
  class FFLobby {
    const chatId: int
    const mode: Mode
    var players: seq<Player>
    var started: bool
    var mapName: Option<MapName>

    ghost predicate Valid()
      reads this
    {
      DistinctUids(players) && HpInvariant(players)
    }

    /** The lobby `ff_mode_callback` creates: its creator is the only player
        and, in both modes, has no team. */
    constructor (chatId: int, mode: Mode, creator: int)
      ensures Valid()
      ensures this.chatId == chatId && this.mode == mode
      ensures players == [NewPlayer(creator, None)] && !started && mapName == None
    {
      this.chatId := chatId;
      this.mode := mode;
      players := [NewPlayer(creator, None)];
      started := false;
      mapName := None;
    }

    /** "ff_join"; the source accepts it in any phase, even after the start. */
    method Join(uid: int) returns (joined: bool)
      requires Valid()
      modifies this
      ensures Valid()
      ensures joined <==> !Member(old(players), uid)
      ensures players == Joined(old(players), uid, mode)
      ensures started == old(started) && mapName == old(mapName)
    {
      if Member(players, uid) {
        return false;
      }
      var team := if mode == Team then Some(NextTeam(players)) else None;
      players := players + [NewPlayer(uid, team)];
      joined := true;
    }

    /** "ff_leave" */
    method Leave(uid: int) returns (left: bool)
      requires Valid()
      modifies this
      ensures Valid()
      ensures left <==> Member(old(players), uid)
      ensures players == Without(old(players), uid)
      ensures started == old(started) && mapName == old(mapName)
    {
      WithoutDistinct(players, uid);
      WithoutHp(players, uid);
      WithoutLength(players, uid);
      left := Member(players, uid);
      if left {
        players := Without(players, uid);
      }
    }

    /** "ff_start": only the first call starts the match. */
    method Start() returns (launched: bool)
      requires Valid()
      modifies this
      ensures Valid()
      ensures launched <==> !old(started)
      ensures started && players == old(players) && mapName == old(mapName)
    {
      if started {
        return false;
      }
      started := true;
      launched := true;
    }

    /** End of the plane phase: everyone who has not jumped is made to jump. */
    method AutoJump()
      requires Valid()
      modifies this
      ensures Valid()
      ensures players == AllJumped(old(players))
      ensures started == old(started) && mapName == old(mapName)
    {
      var i := 0;
      while i < |players|
        invariant 0 <= i <= |players| == |old(players)|
        invariant forall k :: 0 <= k < i ==> players[k] == old(players[k]).(jumped := true)
        invariant forall k :: i <= k < |players| ==> players[k] == old(players[k])
        invariant started == old(started) && mapName == old(mapName)
      {
        if !players[i].jumped {
          players := players[i := players[i].(jumped := true)];
        }
        i := i + 1;
      }
      ghost var jumped := AllJumped(old(players));
      assert forall k :: 0 <= k < |players| ==> players[k] == jumped[k];
    }

    /** Looting: each player's pistol is set (so everyone holds exactly one),
        and the optional gun is appended to that player's guns. */
    method Loot(draws: seq<LootDraw>)
      requires Valid()
      requires |draws| == |players|
      modifies this
      ensures Valid()
      ensures players == Looted(old(players), draws)
      ensures started == old(started) && mapName == old(mapName)
    {
      var i := 0;
      while i < |players|
        invariant 0 <= i <= |players| == |old(players)|
        invariant forall k :: 0 <= k < i ==>
                    players[k] == old(players[k]).(pistol := Some(draws[k].pistol), guns := old(players[k]).guns + Drawn(draws[k]))
        invariant forall k :: i <= k < |players| ==> players[k] == old(players[k])
        invariant started == old(started) && mapName == old(mapName)
      {
        var p := players[i].(pistol := Some(draws[i].pistol));
        if draws[i].gun.Some? {
          p := p.(guns := p.guns + [draws[i].gun.value]);
        }
        players := players[i := p];
        i := i + 1;
      }
      ghost var looted := Looted(old(players), draws);
      assert forall k :: 0 <= k < |players| ==> players[k] == looted[k];
    }

    /** The combat loop. `clock(n)` is the time read before the n-th shot and
        `shots(n)` its draws. The loop stops once the clock reaches `end` or
        at most one player can still fight. Termination does not depend on
        the clock: every shot lowers the total hit points of the living. */
    method Fight(end: int, clock: nat -> int, shots: nat -> Shot) returns (rounds: nat)
      requires Valid()
      requires forall n :: MinDamage <= shots(n).damage <= MaxDamage
      modifies this
      ensures Valid()
      ensures (players, rounds) == Played(old(players), end, clock, shots, 0)
      ensures started == old(started) && mapName == old(mapName)
    {
      var ps := players;
      rounds := 0;
      while clock(rounds) < end
        modifies {}
        invariant DistinctUids(ps) && HpInvariant(ps)
        invariant Played(ps, end, clock, shots, rounds) == Played(players, end, clock, shots, 0)
        decreases AliveHp(ps)
      {
        if |IndicesWhere(ps, Selectable)| <= 1 {
          break;
        }
        ps := Round(ps, shots(rounds));
        rounds := rounds + 1;
      }
      players := ps;
    }
  }

  // ----- The lobby registry -----

  datatype Action = JoinAction | LeaveAction | StartAction | OtherAction

  datatype Reply = NoLobby | AlreadyIn | JoinedLobby | LeftLobby | NotInLobby | AlreadyStarted | MatchStarted | Ignored

  /** `ff_lobbies`: the lobby of each chat. */
  class Arena {
    var lobbies: map<int, FFLobby>

    ghost predicate Valid()
      reads this, lobbies.Values
    {
      forall c :: c in lobbies ==> lobbies[c].chatId == c && lobbies[c].Valid() && lobbies[c].players != []
    }

    constructor ()
      ensures Valid() && lobbies == map[]
    {
      lobbies := map[];
    }

    /** `ff_mode_callback`: a new lobby replaces whatever the chat had. */
    method CreateLobby(chat: int, mode: Mode, creator: int) returns (lobby: FFLobby)
      requires Valid()
      modifies this
      ensures Valid()
      ensures fresh(lobby) && lobbies == old(lobbies)[chat := lobby]
      ensures lobby.mode == mode && lobby.players == [NewPlayer(creator, None)] && !lobby.started && lobby.mapName == None
    {
      lobby := new FFLobby(chat, mode, creator);
      lobbies := lobbies[chat := lobby];
    }

    /** `ff_lobby_callback`: join, leave or start in the chat's lobby; the last
        leave removes the lobby; any other action ("ff_jump" among them) finds
        the lobby and does nothing. */
    method Act(chat: int, uid: int, action: Action) returns (reply: Reply)
      requires Valid()
      modifies this, if chat in lobbies then {lobbies[chat]} else {}
      ensures Valid()
      ensures reply == NoLobby <==> chat !in old(lobbies)
      ensures reply == NoLobby ==> lobbies == old(lobbies)
      ensures chat in old(lobbies) ==> reply != NoLobby && var l := old(lobbies)[chat];
                match action
                case JoinAction =>
                  reply == (if Member(old(l.players), uid) then AlreadyIn else JoinedLobby)
                  && l.players == Joined(old(l.players), uid, l.mode)
                  && l.started == old(l.started) && l.mapName == old(l.mapName) && lobbies == old(lobbies)
                case LeaveAction =>
                  reply == (if Member(old(l.players), uid) then LeftLobby else NotInLobby)
                  && l.players == Without(old(l.players), uid) && l.started == old(l.started) && l.mapName == old(l.mapName)
                  && lobbies == (if l.players == [] then old(lobbies) - {chat} else old(lobbies))
                case StartAction =>
                  reply == (if old(l.started) then AlreadyStarted else MatchStarted)
                  && l.started && l.players == old(l.players) && l.mapName == old(l.mapName) && lobbies == old(lobbies)
                case OtherAction =>
                  reply == Ignored && unchanged(l) && lobbies == old(lobbies)
    {
      if chat !in lobbies {
        return NoLobby;
      }
      match action
      case JoinAction =>
        reply := JoinIn(chat, uid);
      case LeaveAction =>
        reply := LeaveFrom(chat, uid);
      case StartAction =>
        var launched := lobbies[chat].Start();
        reply := if launched then MatchStarted else AlreadyStarted;
      case OtherAction =>
        reply := Ignored;
    }

    /** The "ff_join" branch of `ff_lobby_callback`. */
    method JoinIn(chat: int, uid: int) returns (reply: Reply)
      requires Valid() && chat in lobbies
      modifies lobbies[chat]
      ensures Valid()
      ensures reply == (if Member(old(lobbies[chat].players), uid) then AlreadyIn else JoinedLobby)
      ensures lobbies[chat].players == Joined(old(lobbies[chat].players), uid, lobbies[chat].mode)
      ensures lobbies[chat].started == old(lobbies[chat].started) && lobbies[chat].mapName == old(lobbies[chat].mapName)
    {
      var joined := lobbies[chat].Join(uid);
      reply := if joined then JoinedLobby else AlreadyIn;
    }

    /** The "ff_leave" branch of `ff_lobby_callback`: the last leave removes
        the lobby. */
    method LeaveFrom(chat: int, uid: int) returns (reply: Reply)
      requires Valid() && chat in lobbies
      modifies this, lobbies[chat]
      ensures Valid()
      ensures var l := old(lobbies[chat]);
              reply == (if Member(old(l.players), uid) then LeftLobby else NotInLobby)
              && l.players == Without(old(l.players), uid) && l.started == old(l.started) && l.mapName == old(l.mapName)
              && lobbies == (if l.players == [] then old(lobbies) - {chat} else old(lobbies))
    {
      var lobby := lobbies[chat];
      var left := lobby.Leave(uid);
      if left {
        reply := LeftLobby;
        if lobby.players == [] {
          lobbies := lobbies - {chat};
        }
      } else {
        reply := NotInLobby;
      }
    }

    /** `ff_matchmaking` after its waits: pick the map, auto-jump, loot, fight,
        name the first living player in roster order (None is a draw), and
        drop the chat's lobby. */
    method Matchmaking(lobby: FFLobby, mapName: MapName, loot: seq<LootDraw>, end: int, clock: nat -> int, shots: nat -> Shot)
      returns (winner: Option<int>)
      requires Valid() && lobby.Valid()
      requires |loot| == |lobby.players|
      requires forall n :: MinDamage <= shots(n).damage <= MaxDamage
      modifies this, lobby
      ensures Valid()
      ensures lobbies == old(lobbies) - {lobby.chatId}
      ensures lobby.mapName == Some(mapName) && lobby.started == old(lobby.started) && |lobby.players| == |old(lobby.players)|
      ensures forall i :: 0 <= i < |lobby.players| ==> lobby.players[i].jumped && lobby.players[i].pistol == Some(loot[i].pistol)
      ensures lobby.players == Played(Looted(AllJumped(old(lobby.players)), loot), end, clock, shots, 0).0
      ensures ShotsOnly(Looted(AllJumped(old(lobby.players)), loot), lobby.players)
      ensures winner.Some? <==> Winner(lobby.players).Some?
      ensures winner.Some? ==> winner.value == lobby.players[Winner(lobby.players).value].uid
      ensures Winner(old(lobby.players)).Some? ==> winner.Some?
    {
      lobby.mapName := Some(mapName);
      lobby.AutoJump();
      lobby.Loot(loot);
      ghost var before := lobby.players;
      var rounds := lobby.Fight(end, clock, shots);
      assert before == Looted(AllJumped(old(lobby.players)), loot);
      PreparedFields(old(lobby.players), loot, lobby.players);
      AnyAliveWinner(old(lobby.players));
      if AnyAlive(old(lobby.players)) {
        PreparedAlive(old(lobby.players), loot);
      }
      AnyAliveWinner(lobby.players);
      var w := Winner(lobby.players);
      winner := if w.Some? then Some(lobby.players[w.value].uid) else None;
      lobbies := lobbies - {lobby.chatId};
    }
  }
}
