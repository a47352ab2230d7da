/** The Free Fire combatant and the pure rules of the automatic fight: who may
    shoot and be shot, what one shot changes, the hit-point measure that makes
    the fight finite, and how the survivor is named. */
module Combat {
  import opened Options

  datatype Pistol = M500 | G18
  datatype Gun = Ak47 | Scar | M14 | Mp5 | Mp40

  /** `FFPlayer`: the fields the match logic reads or writes. The display name
      is read only for messages; medkits, glue, money and MP5 level are set
      once and never read. */
  datatype Player = Player(
    uid: int,
    hp: int,
    guns: seq<Gun>,
    pistol: Option<Pistol>,
    alive: bool,
    knocked: bool,
    kills: nat,
    jumped: bool,
    team: Option<nat>)

  const StartHp := 200
  /** Bounds of `randint(15, 60)`, the damage of one shot. */
  const MinDamage := 15
  const MaxDamage := 60

  /** A freshly constructed player; `team` is None unless a team-mode join sets it. */
  function NewPlayer(uid: int, team: Option<nat>): (p: Player)
    ensures p.uid == uid && p.team == team
    ensures Selectable(p) && p.hp == StartHp > 0
    ensures p.guns == [] && p.pistol == None && p.kills == 0 && !p.jumped
  {
    Player(uid, StartHp, [], None, true, false, 0, false, team)
  }

  /** Eligible as attacker or target: alive and not knocked. */
  predicate Selectable(p: Player) { p.alive && !p.knocked }

  /** No two roster entries share a user id (the roster is a dictionary). */
  predicate DistinctUids(ps: seq<Player>)
  {
    forall i, j :: 0 <= i < j < |ps| ==> ps[i].uid != ps[j].uid
  }

  /** Everyone alive has hit points left. */
  predicate HpInvariant(ps: seq<Player>)
  {
    forall i :: 0 <= i < |ps| ==> ps[i].alive ==> ps[i].hp > 0
  }

  /** A list comprehension over the roster: the positions, in roster order, of
      the players `keep` accepts, and no others. */
  function IndicesWhere(ps: seq<Player>, keep: Player -> bool): (r: seq<nat>)
    ensures forall k :: 0 <= k < |r| ==> r[k] < |ps| && keep(ps[r[k]])
    ensures forall j :: 0 <= j < |ps| && keep(ps[j]) ==> j in r
    ensures forall k, l :: 0 <= k < l < |r| ==> r[k] < r[l]
  {
    if ps == [] then []
    else
      var init := ps[..|ps| - 1];
      assert forall j :: 0 <= j < |init| ==> init[j] == ps[j];
      IndicesWhere(init, keep) + if keep(ps[|ps| - 1]) then [|ps| - 1] else []
  }

  /** One shot of the combat loop: player `a` hits player `t` for `dmg`; the
      target dies when its hit points reach 0; and, independently of whether the
      shot was lethal, `lucky` (the 20% draw) adds one to the attacker's kills.
      Nothing else about anyone changes and nobody is revived. */
  function Shoot(ps: seq<Player>, a: nat, t: nat, dmg: int, lucky: bool): (r: seq<Player>)
    requires a < |ps| && t < |ps| && a != t
    ensures |r| == |ps|
    ensures forall j :: 0 <= j < |ps| && j != a && j != t ==> r[j] == ps[j]
    ensures r[t] == ps[t].(hp := ps[t].hp - dmg, alive := r[t].alive)
    ensures r[t].alive <==> ps[t].alive && ps[t].hp - dmg > 0
    ensures r[a] == ps[a].(kills := r[a].kills)
    ensures r[a].kills == ps[a].kills + (if lucky then 1 else 0)
    ensures forall j :: 0 <= j < |ps| ==> r[j].alive ==> ps[j].alive
    ensures HpInvariant(ps) ==> HpInvariant(r)
  {
    var target := ps[t].(hp := ps[t].hp - dmg);
    var attacker := ps[a].(kills := ps[a].kills + if lucky then 1 else 0);
    var target' := if target.hp <= 0 && target.alive then target.(alive := false) else target;
    ps[t := target'][a := attacker]
  }

  /** A player's part of the fight's measure: its hit points while alive. */
  function Share(p: Player): int
  {
    if p.alive then p.hp else 0
  }

  /** Total hit points of the living: the measure that every shot lowers. */
  function AliveHp(ps: seq<Player>): int
  {
    if ps == [] then 0 else AliveHp(ps[..|ps| - 1]) + Share(ps[|ps| - 1])
  }

  lemma {:induction false} AliveHpNonNegative(ps: seq<Player>)
    requires HpInvariant(ps)
    ensures AliveHp(ps) >= 0
  {
    if ps != [] {
      AliveHpNonNegative(ps[..|ps| - 1]);
    }
  }

  lemma {:induction false} AliveHpUpdate(ps: seq<Player>, t: nat, p: Player)
    requires t < |ps|
    ensures AliveHp(ps[t := p]) == AliveHp(ps) - Share(ps[t]) + Share(p)
  {
    var n := |ps| - 1;
    if t == n {
      assert ps[t := p][..n] == ps[..n];
    } else {
      assert ps[t := p][..n] == ps[..n][t := p];
      AliveHpUpdate(ps[..n], t, p);
    }
  }

  /** A shot at a living target with positive damage strictly lowers the
      total hit points of the living, which never go below zero: so the
      combat loop ends even without its clock. */
  lemma ShootShrinksAliveHp(ps: seq<Player>, a: nat, t: nat, dmg: int, lucky: bool)
    requires a < |ps| && t < |ps| && a != t
    requires HpInvariant(ps) && ps[t].alive && dmg > 0
    ensures 0 <= AliveHp(Shoot(ps, a, t, dmg, lucky)) < AliveHp(ps)
  {
    var target := ps[t].(hp := ps[t].hp - dmg);
    var target' := if target.hp <= 0 && target.alive then target.(alive := false) else target;
    var mid := ps[t := target'];
    AliveHpUpdate(ps, t, target');
    AliveHpUpdate(mid, a, ps[a].(kills := ps[a].kills + if lucky then 1 else 0));
    AliveHpNonNegative(Shoot(ps, a, t, dmg, lucky));
  }

  /** The kill counter is not tied to eliminations: a lucky non-lethal shot
      credits a kill while the target lives on. */
  lemma KillWithoutElimination(u1: int, u2: int)
    ensures var r := Shoot([NewPlayer(u1, None), NewPlayer(u2, None)], 0, 1, MinDamage, true);
            r[0].kills == 1 && r[1].alive && r[1].hp == StartHp - MinDamage
  {
  }

  /** `survivors[0]`: the position of the first living player in roster order,
      or None (a draw) when nobody is alive. */
  function Winner(ps: seq<Player>): (w: Option<nat>)
    ensures w.Some? ==> w.value < |ps| && ps[w.value].alive
    ensures w.Some? ==> forall j :: 0 <= j < w.value ==> !ps[j].alive
    ensures w.None? <==> forall j :: 0 <= j < |ps| ==> !ps[j].alive
  {
    if ps == [] then None
    else if ps[0].alive then Some(0)
    else match Winner(ps[1..])
      case None => None
      case Some(k) => Some(k + 1)
  }
}
