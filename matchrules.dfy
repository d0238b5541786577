/**
 * The rules MahjongGameCore applies between and within hands, stated as
 * functions on values: the rotation/termination decision of `reset`, the
 * turn tracker and the call resolver of `_update_player_infos`, the
 * added-quad promotion, the honba and riichi-stick settlement of
 * `calc_scores`, the tenpai filter of `check_tenpai` and the final
 * seat-priority ranking of `calc_final_scores`.  The class in GameCore
 * proves its methods against these.
 */
module MatchRules {
  import opened Wrappers
  import opened Text
  import opened Utils
  import Dicts

  // ----------------------------------------------------------- configuration

  /** the keys of the configuration the orchestrator reads (`n_games`,
      `more_games`, `negative_continue`, `enable_honba_fee`, `AL_continue`,
      `REACH_PT` and `START_POINT`); the bonus points only shape the
      floating-point display and are not part of this model */
  datatype Config = Config(
    maxGameCount: int,
    moreGames: bool,
    negativeContinue: bool,
    honbaFee: bool,
    alContinue: bool,
    reachPoint: int,
    initPoints: int)

  /** `START_POINT - MahjongEnv.INIT_POINTS`: the target on the cumulative
      scores, which count from zero */
  function Target(cfg: Config): int
  {
    cfg.reachPoint - cfg.initPoints
  }

  /** `enable_honba_fee` used as a factor */
  function Fee(cfg: Config): int
  {
    if cfg.honbaFee then 1 else 0
  }

  /** a Python bool used as an integer */
  function B(b: bool): int
  {
    if b then 1 else 0
  }

  /** `game_status`: the dealer seat, the prevailing wind, the hand count,
      the honba counter, the riichi sticks on the table and the cumulative
      scores (one per seat, counted from the starting points) */
  datatype GameStatus = GameStatus(
    oya: int,
    wind: Wind,
    gameCount: int,
    honba: int,
    riichibo: int,
    cum: seq<int>)

  // ------------------------------------------------------------ score vectors

  function Sum(s: seq<int>): int
  {
    if s == [] then 0 else s[0] + Sum(s[1..])
  }

  /** np.max */
  function Max(s: seq<int>): (m: int)
    requires |s| > 0
    ensures m in s
    ensures forall i :: 0 <= i < |s| ==> s[i] <= m
  {
    if |s| == 1 then s[0]
    else
      var m' := Max(s[1..]);
      assert m' in s;
      if s[0] >= m' then s[0] else m'
  }

  /** np.min */
  function Min(s: seq<int>): (m: int)
    requires |s| > 0
    ensures m in s
    ensures forall i :: 0 <= i < |s| ==> m <= s[i]
  {
    if |s| == 1 then s[0]
    else
      var m' := Min(s[1..]);
      assert m' in s;
      if s[0] <= m' then s[0] else m'
  }

  /** np.argmax: the first seat holding the maximum */
  function ArgMax(s: seq<int>): (k: int)
    requires |s| > 0
    ensures 0 <= k < |s| && s[k] == Max(s)
    ensures forall i :: 0 <= i < k ==> s[i] < Max(s)
  {
    FirstAt(s, Max(s), 0)
  }

  function FirstAt(s: seq<int>, v: int, i: nat): (k: int)
    requires i <= |s| && v in s[i..]
    ensures i <= k < |s| && s[k] == v
    ensures forall j :: i <= j < k ==> s[j] != v
    decreases |s| - i
  {
    if s[i] == v then i
    else
      assert v in s[i + 1..] by { assert s[i..] == [s[i]] + s[i + 1..]; }
      FirstAt(s, v, i + 1)
  }

  function RemoveAt(s: seq<int>, k: int): (r: seq<int>)
    requires 0 <= k < |s|
    ensures |r| == |s| - 1
    ensures forall j :: 0 <= j < k ==> r[j] == s[j]
    ensures forall j :: k <= j < |r| ==> r[j] == s[j + 1]
  {
    s[..k] + s[k + 1..]
  }

  /** `-np.sort(-s)[1]`: the second entry of `s` sorted in descending order,
      that is the largest entry once one occurrence of the maximum is set
      aside; it is below the maximum exactly when the maximum is held by a
      single seat */
  function SecondMax(s: seq<int>): (m: int)
    requires |s| >= 2
    ensures m <= Max(s)
    ensures exists j :: 0 <= j < |s| && j != ArgMax(s) && s[j] == m
    ensures forall j :: 0 <= j < |s| && j != ArgMax(s) ==> s[j] <= m
    ensures m < Max(s) <==> forall j :: 0 <= j < |s| && j != ArgMax(s) ==> s[j] < Max(s)
  {
    var k := ArgMax(s);
    var rest := RemoveAt(s, k);
    var m := Max(rest);
    var i :| 0 <= i < |rest| && rest[i] == m;
    assert s[if i < k then i else i + 1] == m;
    forall j | 0 <= j < |s| && j != k
      ensures s[j] <= m
    {
      assert s[j] == rest[if j < k then j else j - 1];
    }
    m
  }

  // ------------------------------------------------------------------ reset

  /** the wind of the hand with this count: four hands per wind */
  function WindAt(gameCount: int): Wind
  {
    Winds[gameCount / 4 % 4]
  }

  /** the extension test of `reset`: overtime is on, fewer than four extra
      hands were granted and nobody has reached the target yet */
  predicate Overtime(cfg: Config, extra: int, cum: seq<int>)
    requires |cum| > 0
  {
    cfg.moreGames && extra < 4 && Max(cum) < Target(cfg)
  }

  /** the three termination conditions of `reset`, on the advanced count */
  predicate Exhausted(cfg: Config, extra: int, gameCount: int, cum: seq<int>)
    requires |cum| > 0
  {
    gameCount >= cfg.maxGameCount + extra
    || (!cfg.negativeContinue && Min(cum) < -cfg.initPoints)
    || (gameCount >= cfg.maxGameCount && Max(cum) >= Target(cfg))
  }

  /** the dealer-first fast termination: in the last scheduled hand the
      dealer kept the seat, leads alone and has reached the target */
  predicate DealerSweep(cfg: Config, gameCount: int, changeOya: bool, oya: int, cum: seq<int>)
    requires |cum| >= 2 && 0 <= oya < |cum|
  {
    !cfg.alContinue
    && gameCount == cfg.maxGameCount - 1
    && !changeOya
    && Max(cum) == cum[oya]
    && Max(cum) > SecondMax(cum)
    && Max(cum) >= Target(cfg)
  }

  /** what `reset` decides: the new `extra`, whether the match ends, and the
      new `game_status` */
  datatype Rotation = Rotation(extra: int, ends: bool, status: GameStatus)

  /** `reset(change_oya, no_win)` after the first hand */
  function Rotate(cfg: Config, extra: int, st: GameStatus, changeOya: bool, noWin: bool): (r: Rotation)
    requires |st.cum| == 4 && 0 <= st.oya < 4
    // at most one extra hand per call, only while nobody has reached the target
    ensures r.extra == extra || r.extra == extra + 1
    ensures r.extra == extra + 1 ==> cfg.moreGames && extra < 4 && Max(st.cum) < Target(cfg)
    ensures extra <= 4 ==> r.extra <= 4
    // the match ends on any termination condition, or on the dealer sweep
    ensures r.ends <==>
      Exhausted(cfg, r.extra, st.gameCount + B(changeOya), st.cum)
      || DealerSweep(cfg, st.gameCount + B(changeOya), changeOya, st.oya, st.cum)
    // ... and then the count is rolled back and nothing else moves
    ensures r.ends ==> r.status == st
    // otherwise the dealer rotates on a change, honba counts repeats and draws,
    // and the wind follows the count
    ensures !r.ends ==> r.status.gameCount == st.gameCount + B(changeOya)
    ensures !r.ends ==> r.status.oya == (st.oya + B(changeOya)) % 4
    ensures !r.ends ==> r.status.honba == if noWin || !changeOya then st.honba + 1 else 0
    ensures !r.ends ==> r.status.wind == Winds[r.status.gameCount / 4 % 4]
    ensures !r.ends ==> r.status.riichibo == st.riichibo && r.status.cum == st.cum
  {
    var extra' := if Overtime(cfg, extra, st.cum) then extra + 1 else extra;
    var gameCount := st.gameCount + B(changeOya);
    if Exhausted(cfg, extra', gameCount, st.cum) then
      Rotation(extra', true, st)
    else if DealerSweep(cfg, gameCount, changeOya, st.oya, st.cum) then
      Rotation(extra', true, st)
    else
      Rotation(extra', false, st.(
        oya := (st.oya + B(changeOya)) % 4,
        gameCount := gameCount,
        honba := if noWin || !changeOya then st.honba + 1 else 0,
        wind := WindAt(gameCount)))
  }

  /** a match that goes on never plays past its scheduled hands plus the
      extra ones it was granted, so never past four extra hands */
  lemma RotateBounded(cfg: Config, extra: int, st: GameStatus, changeOya: bool, noWin: bool)
    requires |st.cum| == 4 && 0 <= st.oya < 4 && extra <= 4
    ensures var r := Rotate(cfg, extra, st, changeOya, noWin);
      !r.ends ==> r.status.gameCount < cfg.maxGameCount + r.extra <= cfg.maxGameCount + 4
  {
  }

  /** the dealer decision of `step` once a hand is over
      (gamecore.py:347-350): the deal stays only with a dealer who won, or
      with a dealer who was tenpai when nobody won */
  function DealerChanges(oya: int, winners: seq<int>, tenpai: bool): (c: bool)
    ensures !c <==> oya in winners || (winners == [] && tenpai)
  {
    if |winners| > 0 then oya !in winners else !tenpai
  }

  /** the seat to the right of `o`, where the deal passes to */
  function NextSeat(o: int): int
  {
    if o == 3 then 0 else o + 1
  }

  /** the dealer's seat once the deal has passed on `changes` times from
      the first dealer `first` */
  ghost function Dealer(first: int, changes: nat): int
  {
    if changes == 0 then first else NextSeat(Dealer(first, changes - 1))
  }

  /** the seating of the match status: the dealer is the first dealer
      moved on once per counted hand, and the round wind follows the count */
  ghost predicate Seated(first: int, st: GameStatus)
  {
    st.gameCount >= 0 && st.oya == Dealer(first, st.gameCount) && st.wind == WindAt(st.gameCount)
  }

  /** every dealer change advances the game count by one, so `reset` keeps
      the seating, which is what `calc_final_scores` relies on to recover
      the first dealer */
  lemma RotateKeepsSeating(cfg: Config, extra: int, st: GameStatus, changeOya: bool, noWin: bool, first: int)
    requires |st.cum| == 4 && 0 <= st.oya < 4
    requires Seated(first, st)
    ensures Seated(first, Rotate(cfg, extra, st, changeOya, noWin).status)
  {
  }

  /** when the fast termination fires, the dealer is the only seat at the top */
  lemma SweepLeader(cfg: Config, gameCount: int, changeOya: bool, oya: int, cum: seq<int>)
    requires |cum| == 4 && 0 <= oya < 4
    requires DealerSweep(cfg, gameCount, changeOya, oya, cum)
    ensures forall j :: 0 <= j < 4 && j != oya ==> cum[j] < cum[oya]
  {
  }

  // ------------------------------------------------------- player snapshots

  /** the fields of `get_player_info` the orchestrator reads, with `River`
      and `Calls` already split into tokens: river tokens are a tile, its
      turn and marks (`1m12h-`), call tokens a meld (`4p(4p)4p4p`) */
  datatype PlayerInfo = PlayerInfo(river: seq<string>, calls: seq<string>, hand: string, riichi: bool)

  /** every non-empty river ends in a token whose turn reads back
      (get_turn_from_river_tile asserts this) */
  predicate RiversParse(snaps: seq<PlayerInfo>)
  {
    forall i :: 0 <= i < |snaps| ==> LastTurnParses(snaps[i])
  }

  predicate LastTurnParses(p: PlayerInfo)
  {
    |p.river| > 0 ==> TurnOf(p.river[|p.river| - 1]).Some?
  }

  /** the turn of a player's last discard, -1 for an empty river */
  function LastTurn(p: PlayerInfo): int
    requires LastTurnParses(p)
  {
    if |p.river| == 0 then -1 else TurnOf(p.river[|p.river| - 1]).value
  }

  /** the running maximum of the loops at gamecore.py:189-198 and 214-218,
      which start from `floor` and move only on a strictly larger value: the
      first position holding the largest value above `floor`, -1 if none is */
  function FirstMax(vals: seq<int>, floor: int): (j: int)
    ensures -1 <= j < |vals|
    ensures j == -1 <==> forall i :: 0 <= i < |vals| ==> vals[i] <= floor
    ensures j >= 0 ==> floor < vals[j]
    ensures j >= 0 ==> forall i :: 0 <= i < |vals| ==> vals[i] <= vals[j]
    ensures j >= 0 ==> forall i :: 0 <= i < j ==> vals[i] < vals[j]
  {
    if vals == [] then -1
    else
      var n := |vals| - 1;
      var j := FirstMax(vals[..n], floor);
      assert forall i :: 0 <= i < n ==> vals[..n][i] == vals[i];
      var best := if j == -1 then floor else vals[j];
      if vals[n] > best then n else j
  }

  /** the value the loop holds alongside the position */
  function MaxValue(vals: seq<int>, floor: int): (m: int)
    ensures floor <= m && forall i :: 0 <= i < |vals| ==> vals[i] <= m
  {
    var j := FirstMax(vals, floor);
    if j == -1 then floor else vals[j]
  }

  /** one more step of the running maximum */
  lemma FirstMaxStep(vals: seq<int>, x: int, floor: int)
    ensures FirstMax(vals + [x], floor) == if x > MaxValue(vals, floor) then |vals| else FirstMax(vals, floor)
    ensures MaxValue(vals + [x], floor) == if x > MaxValue(vals, floor) then x else MaxValue(vals, floor)
  {
    assert (vals + [x])[..|vals|] == vals;
  }

  // ----------------------------------------------------------- turn tracker

  /** the turn of every player's last discard (-1 for an empty river) */
  function LastTurns(snaps: seq<PlayerInfo>): (ts: seq<int>)
    requires RiversParse(snaps)
    ensures |ts| == |snaps| && forall i :: 0 <= i < |snaps| ==> ts[i] == LastTurn(snaps[i])
    // -1 marks exactly the empty rivers: a parsed turn is never negative
    ensures forall i :: 0 <= i < |snaps| ==> -1 <= ts[i] && (ts[i] == -1 <==> |snaps[i].river| == 0)
  {
    seq(|snaps|, i requires 0 <= i < |snaps| && RiversParse(snaps) => LastTurn(snaps[i]))
  }

  /** `(max_turn, max_idx)` after gamecore.py:189-198: the latest turn among
      the players' last discards and the lowest seat that made it, both -1
      when every river is empty */
  function LatestDiscard(snaps: seq<PlayerInfo>): (r: (int, int))
    requires RiversParse(snaps)
    ensures forall i :: 0 <= i < |snaps| ==> LastTurn(snaps[i]) <= r.0
    ensures r.0 == -1 <==> forall i :: 0 <= i < |snaps| ==> |snaps[i].river| == 0
    ensures -1 <= r.1 < |snaps|
    ensures r.1 == -1 <==> r.0 == -1
    ensures r.1 >= 0 ==> LastTurn(snaps[r.1]) == r.0
    ensures r.1 >= 0 ==> forall i :: 0 <= i < r.1 ==> LastTurn(snaps[i]) < r.0
  {
    var ts := LastTurns(snaps);
    var j := FirstMax(ts, -1);
    assert forall i :: 0 <= i < |snaps| ==> (|snaps[i].river| == 0 <==> ts[i] <= -1);
    (MaxValue(ts, -1), j)
  }

  lemma LastTurnsPrefix(snaps: seq<PlayerInfo>, k: int)
    requires RiversParse(snaps) && 0 <= k < |snaps|
    ensures RiversParse(snaps[..k]) && RiversParse(snaps[..k + 1])
    ensures LastTurns(snaps[..k + 1]) == LastTurns(snaps[..k]) + [LastTurn(snaps[k])]
  {
    assert forall i :: 0 <= i < k + 1 ==> snaps[..k + 1][i] == snaps[i];
    assert forall i :: 0 <= i < k ==> snaps[..k][i] == snaps[i];
  }

  // ------------------------------------------------------------ call ledger

  /** a `_request_table` value: the action, the turn it was made on and the
      seat that had discarded last */
  datatype Request = Request(action: int, turn: int, fromIdx: int)

  /** `_request_table`, a dict from seat to request kept in insertion order */
  type Ledger = Dicts.Dict<int, Request>

  /** the ledger once `step` has seen seat `p` choose action `a` at `turn`
      (gamecore.py:290-295): a forward call is stored under the seat, in the
      place of an earlier request of that seat, anything else leaves it be */
  function Record(d: Ledger, p: int, a: int, turn: int, from: int): (d': Ledger)
    ensures !IsForwardCall(a) ==> d' == d
    ensures IsForwardCall(a) ==> |d| <= |d'| <= |d| + 1
    ensures IsForwardCall(a) ==> forall i :: 0 <= i < |d'| ==> d'[i] in d || d'[i] == (p, Request(a, turn, from))
    // the seat reads its new request, every other seat what it read before
    ensures IsForwardCall(a) ==> Dicts.Get(d', p) == Some(Request(a, turn, from))
    ensures IsForwardCall(a) ==> forall q :: q != p ==> Dicts.Get(d', q) == Dicts.Get(d, q)
  {
    if IsForwardCall(a) then Dicts.Put(d, p, Request(a, turn, from)) else d
  }

  /** with one entry per seat, the recorded request is what the seat now has
      on the ledger, and every other seat's entry is untouched */
  lemma RecordSpec(d: Ledger, p: int, a: int, turn: int, from: int)
    requires Dicts.DistinctKeys(d) && IsForwardCall(a)
    ensures Dicts.DistinctKeys(Record(d, p, a, turn, from))
    ensures Dicts.Get(Record(d, p, a, turn, from), p) == Some(Request(a, turn, from))
    ensures forall q :: q != p ==> Dicts.Get(Record(d, p, a, turn, from), q) == Dicts.Get(d, q)
  {
    Dicts.PutProperties(d, p, Request(a, turn, from));
  }

  function Actions(d: Ledger): (a: seq<int>)
    ensures |a| == |d| && forall i :: 0 <= i < |d| ==> a[i] == d[i].1.action
  {
    seq(|d|, i requires 0 <= i < |d| => d[i].1.action)
  }

  lemma ActionsPrefix(d: Ledger, k: int)
    requires 0 <= k < |d|
    ensures Actions(d[..k + 1]) == Actions(d[..k]) + [d[k].1.action]
  {
  }

  /** the position in the ledger of the request gamecore.py:214-218 settles
      on: the first entry with the largest action, -1 when no action is
      above 0 */
  function Strongest(d: Ledger): (j: int)
    ensures -1 <= j < |d|
    ensures j == -1 <==> forall i :: 0 <= i < |d| ==> d[i].1.action <= 0
    ensures j >= 0 ==> forall i :: 0 <= i < |d| ==> d[i].1.action <= d[j].1.action
    ensures j >= 0 ==> forall i :: 0 <= i < j ==> d[i].1.action < d[j].1.action
  {
    FirstMax(Actions(d), 0)
  }

  // --------------------------------------------------------------- resolver

  /** `t[2:]` of every token of one river */
  function RiverTags(river: seq<string>): (tags: seq<string>)
    ensures |tags| == |river|
    ensures forall i :: 0 <= i < |river| ==> tags[i] == TileExtra(river[i])
  {
    seq(|river|, i requires 0 <= i < |river| => TileExtra(river[i]))
  }

  /** every token of a river is its tile name followed by its tags */
  lemma RiverTagsSplit(river: seq<string>)
    requires forall i :: 0 <= i < |river| ==> |river[i]| >= 2
    ensures forall i :: 0 <= i < |river| ==> river[i] == Prefix2(river[i]) + RiverTags(river)[i]
  {
    forall i | 0 <= i < |river| ensures river[i] == Prefix2(river[i]) + RiverTags(river)[i] {
      TileSplit(river[i]);
    }
  }

  /** `cumulative_tileinfo_river`: the tags of every river, seat by seat */
  function Tags(snaps: seq<PlayerInfo>): seq<string>
  {
    if snaps == [] then [] else Tags(snaps[..|snaps| - 1]) + RiverTags(snaps[|snaps| - 1].river)
  }

  lemma TagsPrefix(snaps: seq<PlayerInfo>, k: int)
    requires 0 <= k < |snaps|
    ensures Tags(snaps[..k + 1]) == Tags(snaps[..k]) + RiverTags(snaps[k].river)
  {
    assert snaps[..k + 1][..k] == snaps[..k];
  }

  /** the searched text, `" ".join(tags) + " "` */
  function Line(tags: seq<string>): string
  {
    Join(tags, " ") + " "
  }

  /** the assert at gamecore.py:208: the turn's decimal text occurs somewhere */
  predicate Locatable(tags: seq<string>, turn: int)
  {
    Contains(Line(tags), IntToString(turn))
  }

  /** `s[:s.index(" ")]` with `s` cut at the first occurrence of the turn's
      text: from that occurrence up to the next space */
  function Segment(tags: seq<string>, turn: int): (seg: string)
    requires Locatable(tags, turn)
    ensures ' ' !in seg
  {
    var line := Line(tags);
    var s := line[Find(line, IntToString(turn))..];
    assert OccursAt(s, " ", |s| - 1) by { assert s[|s| - 1..] == " "; }
    var e := Find(s, " ");
    assert forall c :: c in s[..e] ==> c != ' ' by {
      forall k | 0 <= k < e ensures s[k] != ' ' { assert s[k..k + 1] == [s[k]]; assert !OccursAt(s, " ", k); }
    }
    s[..e]
  }

  /** the test of gamecore.py:211: the located tile was called away */
  predicate Called(tags: seq<string>, turn: int)
    requires Locatable(tags, turn)
  {
    Contains(Segment(tags, turn), "-")
  }

  /** whether `_update_player_infos` settles the ledger: it holds requests, and
      the river text at the first request's turn carries the called mark */
  predicate Resolves(snaps: seq<PlayerInfo>, d: Ledger)
  {
    |d| > 0 && Locatable(Tags(snaps), d[0].1.turn) && Called(Tags(snaps), d[0].1.turn)
  }

  /** the meld `_update_player_fuuro` appends for seat `p` */
  function NewMeld(p: PlayerInfo, r: Request): (c: CallingInfo)
    requires |p.calls| > 0 && IsForwardCall(r.action)
    ensures c.callingType in {Shun, Ko, Minkan}
    ensures Ok(c.callingType) == ToCategory(r.action)
    ensures c.callingStr == p.calls[|p.calls| - 1] && c.fromPlayer == r.fromIdx
  {
    ForwardCallCategory(r.action);
    CallingInfo(p.calls[|p.calls| - 1], ToCategory(r.action).value, r.fromIdx)
  }

  /** the seat of the strongest request on the ledger shows a meld in the
      snapshots, for the ledger to settle on */
  predicate MeldShown(snaps: seq<PlayerInfo>, d: Ledger)
  {
    var j := Strongest(d);
    j >= 0 && 0 <= d[j].0 < |snaps| && |snaps[d[j].0].calls| > 0
  }

  /** the players' melds once the strongest request on the ledger has become
      a meld of the seat that made it */
  function AddMeld(melds: seq<seq<CallingInfo>>, snaps: seq<PlayerInfo>, d: Ledger): seq<seq<CallingInfo>>
    requires |melds| == 4 && |snaps| == 4 && MeldShown(snaps, d)
    requires IsForwardCall(d[Strongest(d)].1.action)
  {
    var j := Strongest(d);
    var p := d[j].0;
    melds[p := melds[p] + [NewMeld(snaps[p], d[j].1)]]
  }

  // -------------------------------------------------------- added-quad promotion

  /** the position in the new `Calls` of the meld `_render_kakan_player_request`
      picks: the first token the earlier `Calls` lacks, or the last token when
      every one was already there (the loop variable keeps its last value) */
  function NewCallIndex(before: seq<string>, after: seq<string>): (k: int)
    requires |after| > 0
    ensures 0 <= k < |after|
    ensures forall i :: 0 <= i < k ==> after[i] in before
    ensures after[k] !in before || k == |after| - 1
  {
    NewCallFrom(before, after, 0)
  }

  function NewCallFrom(before: seq<string>, after: seq<string>, i: nat): (k: int)
    requires i < |after|
    ensures i <= k < |after|
    ensures forall j :: i <= j < k ==> after[j] in before
    ensures after[k] !in before || k == |after| - 1
    decreases |after| - i
  {
    if after[i] !in before || i == |after| - 1 then i else NewCallFrom(before, after, i + 1)
  }

  /** the position of the first meld whose text contains `tile`, -1 if none */
  function FirstHolding(infos: seq<CallingInfo>, tile: string): (k: int)
    ensures -1 <= k < |infos|
    ensures k >= 0 ==> Contains(infos[k].callingStr, tile)
    ensures forall i :: 0 <= i < |infos| && (k == -1 || i < k) ==> !Contains(infos[i].callingStr, tile)
  {
    if infos == [] then -1
    else if Contains(infos[0].callingStr, tile) then 0
    else
      var k := FirstHolding(infos[1..], tile);
      if k == -1 then -1 else k + 1
  }

  /** a scan that stopped at `i` found the first holding meld */
  lemma HoldingAt(infos: seq<CallingInfo>, tile: string, i: int)
    requires 0 <= i <= |infos|
    requires forall m :: 0 <= m < i ==> !Contains(infos[m].callingStr, tile)
    requires i < |infos| ==> Contains(infos[i].callingStr, tile)
    ensures FirstHolding(infos, tile) == if i == |infos| then -1 else i
  {
  }

  /** gamecore.py:263-268: the first meld containing the quad's tile becomes an
      added quad; the list keeps its length and every other meld */
  function PromoteAddedQuad(infos: seq<CallingInfo>, tile: string): (r: seq<CallingInfo>)
    ensures |r| == |infos|
    ensures forall i :: 0 <= i < |infos| ==>
      r[i].callingStr == infos[i].callingStr && r[i].fromPlayer == infos[i].fromPlayer
    ensures forall i :: 0 <= i < |infos| && r[i] != infos[i] ==>
      r[i].callingType == Kakan && Contains(infos[i].callingStr, tile)
      && forall j :: 0 <= j < i ==> !Contains(infos[j].callingStr, tile)
    ensures forall i, j :: 0 <= i < j < |infos| && r[i] != infos[i] ==> r[j] == infos[j]
    ensures forall i :: 0 <= i < |infos| && Contains(infos[i].callingStr, tile) ==>
      exists j :: 0 <= j <= i && r[j].callingType == Kakan && Contains(infos[j].callingStr, tile)
  {
    var k := FirstHolding(infos, tile);
    if k == -1 then infos else infos[k := infos[k].(callingType := Kakan)]
  }

  // --------------------------------------------------------------- settlement

  function Deduct(s: seq<int>, c: int): (r: seq<int>)
    ensures |r| == |s| && forall i :: 0 <= i < |s| ==> r[i] == s[i] - c
  {
    seq(|s|, i requires 0 <= i < |s| => s[i] - c)
  }

  /** `payoffs -= c` takes `c` from the total once per seat */
  lemma {:induction false} DeductSum(s: seq<int>, c: int)
    ensures Sum(Deduct(s, c)) == Sum(s) - |s| * c
    decreases |s|
  {
    if s != [] {
      assert Deduct(s, c)[1..] == Deduct(s[1..], c);
      DeductSum(s[1..], c);
    }
  }

  /** gamecore.py:358-365, self-drawn win by `w`: the winner collects 400 per
      honba and the sticks, then every seat pays 100 per honba */
  function SelfDrawn(raw: seq<int>, w: int, honba: int, riichibo: int, fee: int): (r: seq<int>)
    requires |raw| == 4 && 0 <= w < 4
    ensures |r| == 4
    ensures r[w] == raw[w] + 300 * honba * fee + 1000 * riichibo
    ensures forall j :: 0 <= j < 4 && j != w ==> r[j] == raw[j] - 100 * honba * fee
  {
    Deduct(raw[w := raw[w] + 100 * 4 * honba * fee + 1000 * riichibo], 100 * honba * fee)
  }

  /** a numpy index into a vector of four: negative values count from the end */
  function Seat(i: int): int
    requires -4 <= i < 4
  {
    if i < 0 then i + 4 else i
  }

  /** gamecore.py:367-371: where the loop over `loser+1 .. loser+4` stops,
      the first seat after the discarder, in turn order, that won, or
      `loser + 4` when none did */
  function HeadFrom(loser: int, winners: seq<int>, k: int): (i: int)
    requires 1 <= k <= 4
    ensures loser + k <= i <= loser + 4
    ensures forall m :: loser + k <= m < i ==> m % 4 !in winners
    ensures i % 4 in winners || i == loser + 4
    decreases 4 - k
  {
    if (loser + k) % 4 in winners || k == 4 then loser + k else HeadFrom(loser, winners, k + 1)
  }

  /** the head winner of a discard win */
  function Head(loser: int, winners: seq<int>): (i: int)
    ensures loser < i <= loser + 4
    ensures forall m :: loser < m < i ==> m % 4 !in winners
    ensures i % 4 in winners || i == loser + 4
  {
    HeadFrom(loser, winners, 1)
  }

  /** with any winner at all, the stop is at a winner */
  lemma HeadWins(loser: int, winners: seq<int>)
    requires |winners| > 0 && 0 <= winners[0] < 4
    ensures Head(loser, winners) % 4 in winners
  {
    var m := loser + 1 + (winners[0] - loser - 1) % 4;
    assert loser < m <= loser + 4 && m % 4 == winners[0];
  }

  /** gamecore.py:372-378, discard win: the head winner collects 300 per honba
      and the sticks, the discarder pays the 300 */
  function DiscardWin(raw: seq<int>, head: int, loser: int, honba: int, riichibo: int, fee: int): (r: seq<int>)
    requires |raw| == 4 && 0 <= head < 4 && -4 <= loser < 4
    ensures |r| == 4
    ensures forall j :: 0 <= j < 4 ==>
      r[j] == raw[j] + (if j == head then 300 * honba * fee + 1000 * riichibo else 0)
                      - (if j == Seat(loser) then 300 * honba * fee else 0)
  {
    var p := raw[head := raw[head] + 100 * 3 * honba * fee + 1000 * riichibo];
    p[Seat(loser) := p[Seat(loser)] - 100 * 3 * honba * fee]
  }

  /** the number of players in riichi, each `True` counting as one */
  function RiichiCount(infos: seq<PlayerInfo>): (n: nat)
    ensures n <= |infos|
  {
    if infos == [] then 0
    else RiichiCount(infos[..|infos| - 1]) + B(infos[|infos| - 1].riichi)
  }

  lemma RiichiPrefix(infos: seq<PlayerInfo>, k: int)
    requires 0 <= k < |infos|
    ensures RiichiCount(infos[..k + 1]) == RiichiCount(infos[..k]) + B(infos[k].riichi)
  {
    assert infos[..k + 1][..k] == infos[..k];
  }

  /** the adjusted payoffs and the sticks left on the table after `calc_scores` */
  datatype Settlement = Settlement(payoffs: seq<int>, riichibo: int)

  /** gamecore.py:358-383, on the raw payoffs of the engine */
  function Settle(raw: seq<int>, lastAction: int, winners: seq<int>, loser: int,
                  honba: int, riichibo: int, fee: int, infos: seq<PlayerInfo>): (s: Settlement)
    requires |raw| == 4 && forall i :: 0 <= i < |winners| ==> 0 <= winners[i] < 4
    requires lastAction == Tsumo ==> |winners| == 1
    requires lastAction != Tsumo && |winners| > 0 ==> -4 <= loser < 4
    ensures |s.payoffs| == 4
    // a win takes the sticks off the table, a draw adds one per riichi
    ensures |winners| > 0 ==> s.riichibo == 0
    ensures |winners| == 0 ==> s.riichibo == riichibo + RiichiCount(infos) && s.payoffs == raw
    // only the sticks change the total: the honba payments cancel out
    ensures |winners| > 0 ==> Sum(s.payoffs) == Sum(raw) + 1000 * riichibo
  {
    if lastAction == Tsumo then
      var r := SelfDrawn(raw, winners[0], honba, riichibo, fee);
      SelfDrawnSum(raw, winners[0], honba, riichibo, fee);
      Settlement(r, 0)
    else if |winners| > 0 then
      var head := Head(loser, winners) % 4;
      var r := DiscardWin(raw, head, loser, honba, riichibo, fee);
      DiscardWinSum(raw, head, loser, honba, riichibo, fee);
      Settlement(r, 0)
    else
      Settlement(raw, riichibo + RiichiCount(infos))
  }

  lemma SelfDrawnSum(raw: seq<int>, w: int, honba: int, riichibo: int, fee: int)
    requires |raw| == 4 && 0 <= w < 4
    ensures Sum(SelfDrawn(raw, w, honba, riichibo, fee)) == Sum(raw) + 1000 * riichibo
  {
    var r := SelfDrawn(raw, w, honba, riichibo, fee);
    var h := 100 * honba * fee;
    SumOfFour(raw);
    SumOfFour(r);
    assert r[0] + r[1] + r[2] + r[3] == raw[0] + raw[1] + raw[2] + raw[3] + 3 * h - 3 * h + 1000 * riichibo;
  }

  lemma DiscardWinSum(raw: seq<int>, head: int, loser: int, honba: int, riichibo: int, fee: int)
    requires |raw| == 4 && 0 <= head < 4 && -4 <= loser < 4
    ensures Sum(DiscardWin(raw, head, loser, honba, riichibo, fee)) == Sum(raw) + 1000 * riichibo
  {
    var r := DiscardWin(raw, head, loser, honba, riichibo, fee);
    SumOfFour(raw);
    SumOfFour(r);
  }

  lemma SumOfFour(s: seq<int>)
    requires |s| == 4
    ensures Sum(s) == s[0] + s[1] + s[2] + s[3]
  {
    assert s[3..][1..] == [] && s[3..][0] == s[3];
    assert Sum(s[3..]) == s[3];
    assert s[2..][1..] == s[3..] && s[2..][0] == s[2];
    assert Sum(s[2..]) == s[2] + s[3];
    assert s[1..][1..] == s[2..] && s[1..][0] == s[1];
    assert Sum(s[1..]) == s[1] + s[2] + s[3];
  }

  // ------------------------------------------------------------------ tenpai

  /** `[w[i:i+2] for i in range(0, len(w), 2)]`: the waits cut at the even
      positions, so every piece but the last has two characters */
  function Chunks2(w: string): (cs: seq<string>)
    ensures |cs| == (|w| + 1) / 2
    ensures forall i :: 0 <= i < |cs| ==> 0 < |cs[i]| <= 2
    ensures forall i :: 0 <= i < |cs| - 1 ==> |cs[i]| == 2
  {
    seq((|w| + 1) / 2, i requires 0 <= i < (|w| + 1) / 2 =>
      w[2 * i .. if 2 * i + 2 <= |w| then 2 * i + 2 else |w|])
  }

  /** where the last piece of non-empty waits starts */
  function LastCut(w: string): nat
    requires |w| > 0
  {
    if |w| % 2 == 0 then |w| - 2 else |w| - 1
  }

  /** the pieces of the waits are those of the waits before the last cut,
      then the last piece */
  lemma Chunks2Snoc(w: string)
    requires |w| > 0
    ensures Chunks2(w) == Chunks2(w[..LastCut(w)]) + [w[LastCut(w)..]]
  {
    var n := LastCut(w);
    var cs := Chunks2(w);
    var pre := Chunks2(w[..n]);
    assert |pre| == |cs| - 1 && 2 * |pre| == n;
    forall j | 0 <= j < |pre| ensures cs[j] == pre[j] {
      assert w[..n][2 * j .. 2 * j + 2] == w[2 * j .. 2 * j + 2];
    }
    assert cs[|cs| - 1] == w[n..];
  }

  /** the pieces concatenate back to the waits */
  lemma {:induction false} Chunks2Concat(w: string)
    ensures Concat(Chunks2(w)) == w
    decreases |w|
  {
    if |w| > 0 {
      var n := LastCut(w);
      var cs := Chunks2(w);
      Chunks2Snoc(w);
      assert cs[..|cs| - 1] == Chunks2(w[..n]);
      Chunks2Concat(w[..n]);
      assert w[..n] + w[n..] == w;
    }
  }

  /** the waits `check_tenpai` keeps: those the hand does not already hold
      four times */
  function LiveWaits(waits: seq<string>, hand: string): (r: seq<string>)
    requires forall i :: 0 <= i < |waits| ==> |waits[i]| > 0
    ensures forall i :: 0 <= i < |r| ==> r[i] in waits && Count(hand, r[i]) < 4
    ensures forall i :: 0 <= i < |waits| && Count(hand, waits[i]) < 4 ==> waits[i] in r
  {
    if waits == [] then []
    else
      var n := |waits| - 1;
      var r := LiveWaits(waits[..n], hand);
      assert forall i :: 0 <= i < n ==> waits[..n][i] == waits[i];
      if Count(hand, waits[n]) < 4 then r + [waits[n]] else r
  }

  /** some wait is live exactly when some chunk is held fewer than four times */
  lemma LiveWaitsExist(waits: seq<string>, hand: string)
    requires forall i :: 0 <= i < |waits| ==> |waits[i]| > 0
    ensures |LiveWaits(waits, hand)| > 0 <==> exists i :: 0 <= i < |waits| && Count(hand, waits[i]) < 4
  {
    var r := LiveWaits(waits, hand);
    if |r| > 0 {
      assert r[0] in waits;
      var j :| 0 <= j < |waits| && waits[j] == r[0];
      assert Count(hand, waits[j]) < 4;
    }
  }

  // ----------------------------------------------------------- final ranking

  /** `cumulative_scores[0] = -sum(cumulative_scores[1:])`: seat 0 absorbs
      whatever the others do not sum to, the rest is kept */
  function ZeroSum(cum: seq<int>): (r: seq<int>)
    requires |cum| > 0
    ensures Sum(r) == 0
    ensures |r| == |cum| && r[1..] == cum[1..]
  {
    var r := cum[0 := -Sum(cum[1..])];
    assert r[1..] == cum[1..];
    r
  }

  /** seat `s` ranks above seat `t`: more points, or as many and an earlier
      priority */
  predicate Ahead(cum: seq<int>, pr: seq<int>, s: int, t: int)
    requires 0 <= s < |cum| && 0 <= t < |cum| && |pr| == |cum|
  {
    cum[s] > cum[t] || (cum[s] == cum[t] && pr[s] < pr[t])
  }

  predicate Seats(xs: seq<int>, n: int)
  {
    forall i :: 0 <= i < |xs| ==> 0 <= xs[i] < n
  }

  /** no seat is ranked below one it is ahead of */
  predicate Ranked(cum: seq<int>, pr: seq<int>, xs: seq<int>)
    requires |pr| == |cum| && Seats(xs, |cum|)
  {
    forall i, j :: 0 <= i < j < |xs| ==> !Ahead(cum, pr, xs[j], xs[i])
  }

  function Insert(cum: seq<int>, pr: seq<int>, s: int, xs: seq<int>): (r: seq<int>)
    requires |pr| == |cum| && 0 <= s < |cum| && Seats(xs, |cum|)
    requires Ranked(cum, pr, xs)
    ensures Seats(r, |cum|) && Ranked(cum, pr, r)
    ensures multiset(r) == multiset(xs) + multiset{s}
  {
    if xs == [] then [s]
    else if Ahead(cum, pr, s, xs[0]) then
      assert Ranked(cum, pr, [s] + xs) by { RankedBefore(cum, pr, s, xs); }
      [s] + xs
    else
      var rest := Insert(cum, pr, s, xs[1..]);
      assert multiset(xs) == multiset{xs[0]} + multiset(xs[1..]) by { assert xs == [xs[0]] + xs[1..]; }
      InsertKeeps(cum, pr, s, xs, rest);
      [xs[0]] + rest
  }

  lemma RankedBefore(cum: seq<int>, pr: seq<int>, s: int, xs: seq<int>)
    requires |pr| == |cum| && 0 <= s < |cum| && Seats(xs, |cum|) && |xs| > 0
    requires Ranked(cum, pr, xs) && Ahead(cum, pr, s, xs[0])
    ensures Seats([s] + xs, |cum|) && Ranked(cum, pr, [s] + xs)
  {
    var r := [s] + xs;
    forall i, j | 0 <= i < j < |r|
      ensures !Ahead(cum, pr, r[j], r[i])
    {
      if i == 0 {
        assert !Ahead(cum, pr, xs[j - 1], xs[0]) || j == 1;
      }
    }
  }

  lemma InsertKeeps(cum: seq<int>, pr: seq<int>, s: int, xs: seq<int>, rest: seq<int>)
    requires |pr| == |cum| && 0 <= s < |cum| && Seats(xs, |cum|) && |xs| > 0
    requires Ranked(cum, pr, xs) && !Ahead(cum, pr, s, xs[0])
    requires Seats(rest, |cum|) && Ranked(cum, pr, rest)
    requires multiset(rest) == multiset(xs[1..]) + multiset{s}
    ensures Seats([xs[0]] + rest, |cum|) && Ranked(cum, pr, [xs[0]] + rest)
  {
    var r := [xs[0]] + rest;
    forall j | 0 < j < |r|
      ensures !Ahead(cum, pr, r[j], xs[0])
    {
      assert r[j] in multiset(rest);
      if r[j] != s {
        assert r[j] in multiset(xs[1..]);
        var k :| 0 <= k < |xs[1..]| && xs[1..][k] == r[j];
        assert xs[k + 1] == r[j];
      }
    }
  }

  /** the four seats, in seat order */
  const AllSeats: seq<int> := [0, 1, 2, 3]

  /** `np.argsort` of the nudged scores: the seats from first to last place */
  function Ranking(cum: seq<int>, pr: seq<int>, xs: seq<int>): (r: seq<int>)
    requires |pr| == |cum| && Seats(xs, |cum|)
    ensures Seats(r, |cum|) && Ranked(cum, pr, r)
    ensures multiset(r) == multiset(xs)
  {
    if xs == [] then []
    else
      assert multiset(xs) == multiset(xs[1..]) + multiset{xs[0]} by { assert xs == [xs[0]] + xs[1..]; }
      Insert(cum, pr, xs[0], Ranking(cum, pr, xs[1..]))
  }

  function AddVec(a: seq<int>, b: seq<int>): (r: seq<int>)
    requires |a| == |b|
    ensures |r| == |a| && forall i :: 0 <= i < |a| ==> r[i] == a[i] + b[i]
  {
    seq(|a|, i requires 0 <= i < |a| => a[i] + b[i])
  }

  /** adding a vector of payoffs adds their total to the total */
  lemma {:induction false} AddVecSum(a: seq<int>, b: seq<int>)
    requires |a| == |b|
    ensures Sum(AddVec(a, b)) == Sum(a) + Sum(b)
    decreases |a|
  {
    if a != [] {
      assert AddVec(a, b)[1..] == AddVec(a[1..], b[1..]);
      AddVecSum(a[1..], b[1..]);
    }
  }

  /** after `calc_scores` the cumulative total has grown by the engine's raw
      total, plus the sticks a winner collected: the honba payments cancel */
  lemma HandTotal(cum: seq<int>, raw: seq<int>, lastAction: int, winners: seq<int>, loser: int,
                  honba: int, riichibo: int, fee: int, infos: seq<PlayerInfo>)
    requires |cum| == 4 && |raw| == 4 && forall i :: 0 <= i < |winners| ==> 0 <= winners[i] < 4
    requires lastAction == Tsumo ==> |winners| == 1
    requires lastAction != Tsumo && |winners| > 0 ==> -4 <= loser < 4
    ensures var s := Settle(raw, lastAction, winners, loser, honba, riichibo, fee, infos);
      Sum(AddVec(cum, s.payoffs)) == Sum(cum) + Sum(raw) + (if |winners| > 0 then 1000 * riichibo else 0)
  {
    var s := Settle(raw, lastAction, winners, loser, honba, riichibo, fee, infos);
    AddVecSum(cum, s.payoffs);
  }

  /** how many seats after `o` seat `s` sits, for seats 0..3 */
  function Back(s: int, o: int): int
  {
    if s >= o then s - o else s - o + 4
  }

  /** `seat % 4` for a seat index below 8 */
  function Wrap(seat: int): int
  {
    if seat < 4 then seat else seat - 4
  }

  lemma WrapMod(seat: int)
    requires 0 <= seat < 8
    ensures Wrap(seat) == seat % 4
  {
  }

  lemma BackMod(s: int, o: int)
    requires 0 <= s < 4 && 0 <= o < 4
    ensures Back(s, o) == (s - o) % 4
  {
  }

  /** the priorities after the first `i` rounds of the loop at
      gamecore.py:403-404, which start from zeros */
  function PartialPriorities(o: int, i: int): (pr: seq<int>)
    ensures |pr| == 4
  {
    seq(4, s => if Back(s, o) < i then Back(s, o) else 0)
  }

  lemma PriorityStep(o: int, i: int)
    requires 0 <= o < 4 && 0 <= i < 4
    ensures PartialPriorities(o, i)[Wrap(o + i) := i] == PartialPriorities(o, i + 1)
  {
    var a := PartialPriorities(o, i)[Wrap(o + i) := i];
    var b := PartialPriorities(o, i + 1);
    assert a[0] == b[0] && a[1] == b[1] && a[2] == b[2] && a[3] == b[3];
  }

  /** the priority of every seat when `o` was the first dealer: seats get
      0, 1, 2, 3 in turn order from `o`, so each priority is used once and
      the first dealer breaks every tie */
  function PriorityFrom(o: int): (pr: seq<int>)
    requires 0 <= o < 4
    ensures |pr| == 4 && pr[o] == 0
    ensures forall s :: 0 <= s < 4 ==> 0 <= pr[s] < 4
    ensures forall s, t :: 0 <= s < t < 4 ==> pr[s] != pr[t]
  {
    seq(4, s => Back(s, o))
  }

  /** the loop's result, after its four rounds */
  lemma PrioritiesDone(o: int)
    requires 0 <= o < 4
    ensures PartialPriorities(o, 4) == PriorityFrom(o)
  {
    var a := PartialPriorities(o, 4);
    var b := PriorityFrom(o);
    assert a[0] == b[0] && a[1] == b[1] && a[2] == b[2] && a[3] == b[3];
  }

  /** the dealer after `changes` dealer changes, as modular arithmetic */
  lemma {:induction false} DealerMod(first: int, changes: nat)
    requires 0 <= first < 4
    ensures Dealer(first, changes) == (first + changes) % 4
  {
    if changes > 0 {
      DealerMod(first, changes - 1);
      NextSeatMod(first + changes - 1);
    }
  }

  /** passing the deal on is adding one seat modulo four */
  lemma NextSeatMod(x: int)
    ensures NextSeat(x % 4) == (x + 1) % 4
  {
    var q, m := x / 4, x % 4;
    assert x == 4 * q + m && 0 <= m < 4;
    if m == 3 {
      assert x + 1 == 4 * (q + 1) + 0;
    } else {
      assert x + 1 == 4 * q + (m + 1);
    }
  }

  /** `(oya - game_count) % 4` recovers the first dealer */
  lemma FirstDealer(first: int, changes: nat)
    requires 0 <= first < 4
    ensures (Dealer(first, changes) - changes) % 4 == first
  {
    DealerMod(first, changes);
  }
}
