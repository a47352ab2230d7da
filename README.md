# Game core of the `ff.py` Telegram bot, modelled in Dafny

`ff.py` is a Telegram group bot with several mini-games that share one
economy. Every user has a spendable balance (`balances`) and a net score
(`leaderboard`). Both are Python `defaultdict(int)`s, so a missing account
reads as 0. This project models the parts of the bot that hold game logic and
proves properties of them:

- **Registration** (`/dangky` and its menu button). A user with no positive
  balance is given 100 000. Otherwise the request is refused.
- **Tài/Xỉu.** A player bets a stake on "Tài" (three dice summing to 11 or
  more) or "Xỉu". The stake is debited at once. The first bet of a round
  opens a session for the chat with a 10-second deadline. A polling loop
  closes the round at the deadline, or earlier once the round has bets and
  5 seconds have passed since the last one. At the end each winning bet pays
  twice its stake. The leaderboard gains the net win of each winning bet and
  loses the stake of each losing bet.
- **Xổ số (lottery).** `/xoso` opens a 60-second session per chat. `/chon`
  stores up to five picks in 1..20 for the caller; repeats are kept. The
  draw is one to ten values in 1..20, and repeats are possible. Each drawn
  position whose value a participant picked is one announced win.
- **Free Fire.** A lobby per chat holds a roster. Its creator has no team.
  In team mode ("tc"), later joiners go to the smaller team, team 0 on a tie.
  A match can be started once. The automatic match then runs in phases:
  - Everyone is made to jump.
  - Each player loots a pistol, and a gun with probability 0.85.
  - A timed combat loop fires random shots until at most one player can
    fight.
  - The first living player in roster order is the survivor.

Modules follow the program's structure:

- `Ledger` (ledger.dfy): the shared accounts.
- `TaiXiu` (taixiu.dfy).
- `XoSo` (xoso.dfy).
- `Combat` (combat.dfy): the player record and the pure rules of one shot.
- `FreeFire` (freefire.dfy): team balancing, lobbies, the lobby registry and
  the match.

State that the bot updates in place becomes classes:

- `Economy`.
- `TxSession` and `TxTable` (`active_tx`).
- `XoSoSession` and `XoSoTable` (`active_xoso`).
- `FFLobby` and `Arena` (`ff_lobbies`).

Their methods carry `modifies` clauses. The rules they follow are functions
and lemmas.

Random draws, the clock and the dice are parameters. A `random.choice(xs)`
is an index `k % |xs|` for an arbitrary natural `k`. The combat loop takes a
function from the round number to that round's draws, and one from the round
number to the clock reading. Termination of the combat loop is proved
without the clock: every shot lowers the total hit points of the living
(`Combat.AliveHp`).

Notable behaviours of the code that the model keeps and proves:

- **The remembered Tài/Xỉu result is never used.** The 60% "repeat the
  previous result" branch only fires when the session holds a previous
  result. A session is created fresh for each round with none, and is
  dropped from `active_tx` when the round ends. So the branch is dead.
  `TaiXiu.TxTable.Valid` keeps "no session in the table remembers a result",
  and `TaiXiu.TxTable.EndSession` proves that the result is the dice outcome.
- **A kill is not an elimination.** The kill counter goes up on an
  independent 20% draw, whether or not the shot was lethal
  (`Combat.KillWithoutElimination`).
- **Team balance holds only while nobody leaves.** Balance survives every
  join, but leaves can break it (`FreeFire.LeaveCanUnbalance`).
- **The combat loop's "no targets" exit is dead.** It is only reached with at
  least two players able to fight, so the attacker always has a target
  (`FreeFire.TargetExists`).

Where the game's user-facing description and the code disagree, the model
follows the code:

- A Tài/Xỉu bet has no positivity check on its amount. Only the funds check
  exists.
- Lottery picks may repeat, and the wager given to `/chon` is parsed but not
  stored.
- The "jump" button of the plane phase is routed to the lobby callback,
  which has no branch for it, so it does nothing.
- Join and leave are accepted in any phase, even after the match has
  started.
- The lobby creator never gets a team, even in team mode.

## Model

| member | source | states |
|---|---|---|
| Ledger.Adjust | ff.py:64-66 | `m[uid] += delta` on a defaultdict creates the account if needed, moves it by exactly `delta` and leaves every other account alone |
| Ledger.Debit | ff.py:323-327 | the bet is refused exactly when the balance is below the stake; otherwise only that account drops, by exactly the stake, and never below 0 |
| Ledger.Registration | ff.py:200-205 | registration succeeds exactly when the balance is not positive; it then sets the balance to 100 000 and changes no other account |
| Ledger.RegistrationOnce | ff.py:202-205 | a second registration right after a successful one is refused |
| Ledger.Economy.Register | ff.py:187-194 | the menu and command registration: the outcome and the new balances are those of `Registration`, and the leaderboard is unchanged |
| TaiXiu.DiceOutcome | ff.py:378-380 | three dice give Tài exactly when they sum to 11..18 and Xỉu exactly when they sum to 3..10 |
| TaiXiu.DiceOutcomeMirror | ff.py:378-380 | flipping every die (d to 7 - d) flips the result, so Tài and Xỉu are equally likely on fresh dice |
| TaiXiu.Resolve | ff.py:375-381 | with no previous result, or when the 60% draw fails, the result is the dice outcome and is remembered; when a previous result exists and the draw succeeds, that result is repeated and stays remembered; a result other than the dice outcome can only be the remembered one |
| TaiXiu.ShouldClose | ff.py:351-354 | a poll at or after the deadline closes the round; a poll before it closes the round only when it has a bet and a last-bet time |
| TaiXiu.NoBetsCloseOnlyAtDeadline | ff.py:349-354 | a round without bets closes only at its deadline |
| TaiXiu.RunTxCountdown | ff.py:346-354 | the loop stops at the first poll at which the round is quiet for 5 s after a bet or past its deadline, and never later than the first poll past the deadline |
| TaiXiu.SettleAccount | ff.py:393-402 | per account, settlement adds twice the winning stakes to the balance, and the winning minus the losing stakes to the leaderboard |
| TaiXiu.SettleUntouched | ff.py:393-402 | an account that placed no bet keeps its balance and score, and gains no entry |
| TaiXiu.SettleTotal | ff.py:393-402 | over any distinct list of accounts covering all bettors, the money credited is exactly twice the total stake on the winning side |
| TaiXiu.Settle | ff.py:393-402 | the settlement loop over the bets in order produces exactly `SettleBalances` and `SettleScores` |
| TaiXiu.TxSession.Open | ff.py:281-291 | a new session has no bets, no last bet, no previous result, and a deadline 10 s away |
| TaiXiu.TxTable.PlaceBet | ff.py:310-344 | the funds check and debit; the bet is appended to the chat's running session with its deadline kept, or to a fresh session; a stopped session that the fresh one replaces, and which may still be paying out, is left exactly as it was; the last-bet time is now; a refused bet changes nothing; the leaderboard is untouched |
| TaiXiu.TxTable.EndSession | ff.py:371-413 | the session stops; for the table's own session the result is the dice outcome (the repeat branch is dead); every bet is paid in order as `SettleBalances` and `SettleScores` say; the chat's entry is dropped |
| XoSo.KeepInRange | ff.py:456-463 | the kept picks are exactly the tokens that parse to a value in 1..20, with their multiplicities |
| XoSo.RepeatedPicksKept | ff.py:456-463 | `/chon 3,3` keeps both threes, while out-of-range and unparsable tokens are dropped |
| XoSo.Lookup | ff.py:422 | a lookup fails exactly when no entry has that user |
| XoSo.Assign | ff.py:468 | `picks[uid] = nums` keeps keys unique, keeps every existing user at their place, and appends a new user at the end |
| XoSo.AssignLookup | ff.py:468 | after the assignment the user's lookup gives the new picks and every other lookup is unchanged |
| XoSo.Choose | ff.py:453-468 | the picks are stored exactly when 1 to 5 valid numbers remain; only the caller's entry changes, and it holds only numbers in 1..20 |
| XoSo.WinnerCount | ff.py:490-494 | each participant is announced once per drawn position whose value they picked; a non-participant never is |
| XoSo.DuplicatePicksDoNotMultiply | ff.py:493 | only membership matters: picks with the same values win the same number of times |
| XoSo.WinnersSound | ff.py:490-494 | every announced win names a participant and a drawn value among that participant's picks |
| XoSo.ScenarioDoubleDraw | ff.py:489-494 | the draw [3, 3, 7] against picks [3, 9] gives two wins, both on 3 |
| XoSo.AnnounceHits | ff.py:492-494 | the inner matching loop produces `Hits`: one win per drawn value among the picks, in draw order |
| XoSo.Announce | ff.py:490-494 | the matching loops produce `Winners`: each participant's hits, in dictionary order |
| XoSo.RunXoSoCountdown | ff.py:471-477 | the loop stops at the first clock reading at or after the deadline |
| XoSo.XoSoSession.Open | ff.py:436-441 | a new lottery session is running, with no picks and a deadline 60 s away |
| XoSo.XoSoTable.Open | ff.py:430-442 | `/xoso` is refused while a lottery is running in the chat; otherwise a fresh session replaces the chat's entry |
| XoSo.XoSoTable.Chon | ff.py:444-468 | exactly one of: no running session, a missing argument, a rejected pick list, or accepted picks, each decided on the state before the call; only accepted picks change the session, as `Choose` says, and the session stays running with its deadline |
| XoSo.XoSoTable.Draw | ff.py:485-503 | the announced wins are `Winners` of the picks, so each lies in 1..20, belongs to a participant, and each participant's count is as `WinnerCount` says; the session stops, keeps its picks and deadline, and leaves the table |
| Combat.NewPlayer | ff.py:556-571 | a new player has the given id and team, 200 hit points, is alive, not knocked and able to fight, holds no guns and no pistol, has no kills and has not jumped |
| Combat.IndicesWhere | ff.py:719-723 | a list comprehension over the roster: exactly the accepted positions, in increasing order |
| Combat.Shoot | ff.py:728-732 | only the target's hit points and life and the attacker's kills change; the target dies exactly when its hit points reach 0; kills rise by 1 exactly on the lucky draw; nobody is revived |
| Combat.AliveHpNonNegative | ff.py:716-734 | the total hit points of the living are never negative |
| Combat.ShootShrinksAliveHp | ff.py:716-734 | a shot at a living target strictly lowers the total hit points of the living, which stay non-negative, so the loop ends |
| Combat.KillWithoutElimination | ff.py:729-732 | a lucky non-lethal shot credits a kill while the target lives on |
| Combat.Winner | ff.py:736-741 | the survivor is the first living player in roster order; there is none exactly when nobody lives |
| FreeFire.NextTeam | ff.py:645-647 | a team-mode joiner goes to team 0 or 1, whichever has no more members than the other, and to team 0 on a tie |
| FreeFire.Joined | ff.py:639-654 | a member's rejoin changes nothing; a newcomer is appended as a fresh `NewPlayer`, on the team `NextTeam` picks in team mode and on no team otherwise; balance, unique ids and the hit-point invariant are kept |
| FreeFire.ScenarioFourJoins | ff.py:621-650 | after the creator, four joins in team mode get teams 0, 1, 0, 1, and the creator has none |
| FreeFire.LeaveCanUnbalance | ff.py:640-664 | balanced teams become unbalanced when both team-1 players of that roster leave |
| FreeFire.Without | ff.py:655-657 | a leave never lengthens the roster and leaves no entry with the leaver's id |
| FreeFire.WithoutSubset | ff.py:655-657 | after a leave only old entries remain, and none is the leaver's |
| FreeFire.WithoutKeeps | ff.py:655-657 | after a leave every other player's entry remains |
| FreeFire.WithoutMembers | ff.py:655-657 | after a leave the members are exactly the old members except the leaver |
| FreeFire.WithoutLength | ff.py:655-657 | a leave shortens the roster by one when the leaver was in it, and changes nothing otherwise |
| FreeFire.WithoutDistinct | ff.py:655-657 | a leave keeps user ids unique |
| FreeFire.WithoutHp | ff.py:655-657 | a leave keeps every living player's hit points positive |
| FreeFire.Targets | ff.py:723 | the target positions are exactly the players other than the attacker who can still fight |
| FreeFire.TargetExists | ff.py:719-725 | with two or more fighters every attacker has a target, so the "no targets" exit is never taken |
| FreeFire.ShootKeepsShotsOnly | ff.py:726-732 | a shot by a living attacker changes only hit points, lives and kills; hit points only fall, kills only rise, nobody is revived, and the attacker survives, so someone is alive |
| FreeFire.ShotsOnlyTransitive | ff.py:716-734 | those guarantees carry over a whole sequence of shots |
| FreeFire.AnyAliveWinner | ff.py:736-741 | a survivor is named exactly when someone on the roster is alive |
| FreeFire.Pick | ff.py:719-726 | a round's attacker and target are two different players, with different ids, both able to fight, and the target is among the attacker's `Targets` |
| FreeFire.Round | ff.py:719-732 | one combat iteration is the single `Shoot` of the pair `Pick` draws with the drawn damage and luck; it keeps ids unique and the hit-point invariant, changes only what shots change, leaves someone alive, and strictly lowers the total hit points of the living |
| FreeFire.Played | ff.py:716-734 | the combat loop from a given round ends whatever the clock does; at its end the clock is past the end or at most one player can fight; only shots' effects appear, ids stay unique, and someone is alive if anyone was |
| FreeFire.AllJumped | ff.py:698-701 | after the plane phase every player has jumped and nothing else about anyone changed |
| FreeFire.Looted | ff.py:703-708 | after looting each player holds their drawn pistol and has their drawn gun, if any, appended; nothing else changed |
| FreeFire.PreparedAlive | ff.py:698-708 | jumping and looting kill nobody: a roster with a living player still has one |
| FreeFire.PreparedFields | ff.py:698-734 | after shots on the jumped and looted roster everyone has still jumped and holds the pistol they looted |
| FreeFire.FFLobby.constructor | ff.py:612-625 | a new lobby holds only its creator, with no team, and is not started |
| FreeFire.FFLobby.Join | ff.py:639-654 | the roster becomes `Joined`; the result tells whether the user was new |
| FreeFire.FFLobby.Leave | ff.py:655-664 | the roster loses exactly the leaver's entry; the result tells whether the user was in it |
| FreeFire.FFLobby.Start | ff.py:665-673 | only the first start succeeds; the lobby is started afterwards and nothing else changes |
| FreeFire.FFLobby.AutoJump | ff.py:698-701 | the loop over the roster leaves it as `AllJumped` of the old one |
| FreeFire.FFLobby.Loot | ff.py:703-708 | the loop over the roster leaves it as `Looted` of the old one with the draws |
| FreeFire.FFLobby.Fight | ff.py:714-734 | the loop leaves exactly the roster and round count of `Played` from round 0 |
| FreeFire.Arena.CreateLobby | ff.py:612-625 | a fresh lobby, holding only its creator, not started and with no map, replaces the chat's entry |
| FreeFire.Arena.Act | ff.py:627-673 | a missing lobby is reported and nothing changes; join, leave and start act as `Joined`, `Without` and `Start` say and keep the map; the last leave removes the lobby; any other lobby button is ignored |
| FreeFire.Arena.JoinIn | ff.py:639-654 | the join branch: the reply tells a member from a newcomer, and the roster becomes `Joined` |
| FreeFire.Arena.LeaveFrom | ff.py:655-664 | the leave branch: the reply tells a member from a stranger, the roster becomes `Without`, and the lobby is dropped when it empties |
| FreeFire.Arena.Matchmaking | ff.py:675-743 | the map is set and the started flag kept; the final roster is `Played` from the `Looted` roster of `AllJumped` players, so it differs from the looted one only by shots' effects and everyone has jumped and holds their drawn pistol; the survivor is the id of the first living player, and one exists if anyone was alive before the match; the chat's lobby is dropped |

## Left out

- Telegram I/O is left out: messages, message edits, keyboards, photos, display names (`user_names`) and the loot summary text.
- asyncio tasks, sleeps and the lobby lock are left out. Each operation is modelled as one atomic step, so interleavings of concurrent callbacks are not modelled.
- The plane-phase and matchmaking waits are left out. Only the combat clock appears, as a parameter.
- All randomness is a parameter: the dice, the 60% repeat draw, the lottery draw, the map, the loot, and the attacker, target, damage and luck of each shot.
- JSON persistence is left out: the start-up `load_data` (ff.py:73-87, called at ff.py:801) that fills `balances`, `user_names` and `leaderboard` from the save file, `save_data` and the periodic save. The model does not start from loaded accounts; it starts from empty ones (`Ledger.Economy.constructor`).
- `parse_amount` and `fmt_amount` are left out, as is the text parsing of callback data and command arguments. Amounts arrive as integers, and `/chon` tokens arrive as already-parsed `Option<int>` values.
- TaiXiu.TxTable.PlaceBet: the side is modelled as Tài or Xỉu. A forged callback with any other choice string would be stored and could never win; that case is not modelled.
- TaiXiu.TxTable.PlaceBet: assumes the Telegram `send_message` that announces a new session (ff.py:332) succeeds. In the source the stake is already debited (ff.py:327) when that call runs; if it raises, the handler stops with the stake taken, no session created and no bet recorded. The model cannot reach that state.
- FreeFire.FFLobby.Start: assumes the message edit at ff.py:670 succeeds. In the source `started` is already set (ff.py:669); if the edit raises, the matchmaking task at ff.py:672 is never created, so the lobby stays started with no match running and every later start is refused. The model, like `FreeFire.Arena.Act`, treats the start as launching the match.
- FreeFire.Arena.LeaveFrom: assumes the message edit at ff.py:658 succeeds. In the source the player is already removed (ff.py:657); if the edit raises, the emptied lobby is never dropped (ff.py:659-660) and stays registered with no players, a state the model's `Arena.Valid` excludes.
- The countdown message edits (`COUNTDOWN_EDIT_INTERVAL`) are left out. They only display the remaining time.
- Bầu cua, `/set`, `/diem`, `/top`, the holiday commands and the other chat commands are not part of this model.
- Of the `FFPlayer` fields, the username is left out because it is read only for messages (the loot summary, kill announcements and the survivor announcement, ff.py:712, 733, 739). Medkits, glue, money and MP5 level are set once and never read, and are left out too. The unused `MIN_ST_PLAYERS` is also left out.
- FreeFire.FFLobby.Fight: the loop works on a copy of the roster that is written back when it ends. Mid-combat callbacks could observe the difference, but interleavings are not modelled.
- XoSo.XoSoTable.Chon: the wager argument is not modelled. At ff.py:465 `parse_amount` runs on it before the picks are stored at ff.py:468, and it can raise (for instance `int(float(...))` on a 400-digit number overflows at ff.py:121), in which case the source stores nothing; the model stores the accepted picks regardless.
