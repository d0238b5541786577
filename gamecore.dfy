/**
 * MahjongGameCore: the match orchestrator.  It keeps the match status, the
 * per-hand context and the ledger of speculative calls, and updates them as
 * the external single-hand engine reports its state.  The engine is not
 * modelled: what it reports (player snapshots, whether the hand is over, the
 * raw payoffs, the dealer's waits) comes in as method parameters.
 */
module GameCore {
  import opened Wrappers
  import opened Text
  import opened Utils
  import opened MatchRules
  import Dicts

  class MahjongGameCore {
    const cfg: Config
    /** the dealer the match started with (drawn at random by the source) */
    ghost const firstOya: int

    var extra: int
    var terminated: bool
    var status: GameStatus

    var currentTurn: int
    var lastPlayerIdx: int
    var lastAction: int
    var winners: seq<int>
    /** the seat a discard win was claimed from; -1 until one is */
    var loser: int
    var playerCallingInfo: seq<seq<CallingInfo>>
    var playerInfos: seq<PlayerInfo>
    var requestTable: Ledger
    /** the adjusted payoffs of the last finished hand; empty before one */
    var payoffs: seq<int>

    /** the ledger holds at most one forward call per seat */
    ghost predicate LedgerOk(d: Ledger)
    {
      Dicts.DistinctKeys(d)
      && forall i :: 0 <= i < |d| ==> 0 <= d[i].0 < 4 && IsForwardCall(d[i].1.action)
    }

    ghost predicate Valid()
      reads this
    {
      0 <= firstOya < 4
      && 0 <= extra <= 4
      && |status.cum| == 4
      && 0 <= status.oya < 4
      && status.gameCount >= 0 && status.honba >= 0 && status.riichibo >= 0
      && -1 <= lastPlayerIdx < 4
      && -1 <= loser < 4
      && (forall i :: 0 <= i < |winners| ==> 0 <= winners[i] < 4)
      && |playerCallingInfo| == 4
      && (|playerInfos| == 0 || |playerInfos| == 4)
      && LedgerOk(requestTable)
    }

    /** the per-hand context as `reset` leaves it for a new hand */
    predicate Fresh()
      reads this
    {
      currentTurn == 0 && lastPlayerIdx == -1 && lastAction == -1
      && winners == [] && playerCallingInfo == [[], [], [], []]
      && playerInfos == [] && requestTable == []
    }

    /** the per-hand context is as it was */
    twostate predicate Kept()
      reads this
    {
      currentTurn == old(currentTurn) && lastPlayerIdx == old(lastPlayerIdx)
      && lastAction == old(lastAction) && winners == old(winners)
      && playerCallingInfo == old(playerCallingInfo)
      && playerInfos == old(playerInfos) && requestTable == old(requestTable)
    }

    /** `__init__` followed by the first `reset`, with the first dealer given */
    constructor (config: Config, oya: int)
      requires 0 <= oya < 4
      ensures Valid() && Seated(firstOya, status)
      ensures cfg == config && firstOya == oya
      ensures extra == 0 && !terminated
      ensures status == GameStatus(oya, East, 0, 0, 0, [0, 0, 0, 0])
      ensures currentTurn == 0 && lastPlayerIdx == -1 && lastAction == -1 && loser == -1
      ensures winners == [] && playerCallingInfo == [[], [], [], []]
      ensures playerInfos == [] && requestTable == [] && payoffs == []
    {
      cfg := config;
      firstOya := oya;
      extra := 0;
      terminated := false;
      status := GameStatus(oya, East, 0, 0, 0, [0, 0, 0, 0]);
      currentTurn := 0;
      lastPlayerIdx := -1;
      lastAction := -1;
      winners := [];
      loser := -1;
      playerCallingInfo := [[], [], [], []];
      playerInfos := [];
      requestTable := [];
      payoffs := [];
    }

    /** the per-hand part of `reset` (gamecore.py:134-144) */
    method StartHand()
      modifies this
      ensures Fresh()
      ensures extra == old(extra) && terminated == old(terminated) && status == old(status)
      ensures loser == old(loser) && payoffs == old(payoffs)
    {
      currentTurn := 0;
      lastPlayerIdx := -1;
      lastAction := -1;
      winners := [];
      playerCallingInfo := [[], [], [], []];
      playerInfos := [];
      requestTable := [];
    }

    /** `reset(change_oya, no_win)` once the match is under way: the decision
        is `Rotate`; a hand that goes on starts afresh, a match that ends
        keeps the last hand's context */
    method Reset(changeOya: bool, noWin: bool)
      requires Valid() && Seated(firstOya, status)
      modifies this
      ensures Valid() && Seated(firstOya, status)
      ensures var r := Rotate(cfg, old(extra), old(status), changeOya, noWin);
        extra == r.extra && status == r.status && terminated == (old(terminated) || r.ends)
        && (r.ends ==> Kept()) && (!r.ends ==> Fresh())
      ensures loser == old(loser) && payoffs == old(payoffs)
    {
      var r := Advance(cfg, extra, status, changeOya, noWin);
      RotateKeepsSeating(cfg, extra, status, changeOya, noWin, firstOya);
      extra := r.extra;
      if r.ends {
        terminated := true;
        return;
      }
      status := r.status;
      StartHand();
    }

    /** the decision of gamecore.py:83-129 on the match status: grant an
        extra hand, count the hand, stop on exhaustion (rolling the count
        back) or on the dealer sweep, else rotate the dealer and the honba */
    static method Advance(cfg: Config, extra: int, st: GameStatus, changeOya: bool, noWin: bool) returns (r: Rotation)
      requires |st.cum| == 4 && 0 <= st.oya < 4
      ensures r == Rotate(cfg, extra, st, changeOya, noWin)
    {
      var extra' := extra;
      var status := st;
      if Overtime(cfg, extra', status.cum) {
        extra' := extra' + 1;
      }
      status := status.(gameCount := status.gameCount + B(changeOya));
      if Exhausted(cfg, extra', status.gameCount, status.cum) {
        status := status.(gameCount := status.gameCount - B(changeOya));
        return Rotation(extra', true, status);
      }
      if DealerSweep(cfg, status.gameCount, changeOya, status.oya, status.cum) {
        return Rotation(extra', true, st);
      }
      status := status.(oya := (status.oya + B(changeOya)) % 4);
      if noWin || !changeOya {
        status := status.(honba := status.honba + 1);
      } else {
        status := status.(honba := 0);
      }
      status := status.(wind := WindAt(status.gameCount));
      r := Rotation(extra', false, status);
    }

    /** `check_tenpai` on the dealer's waits (as the engine writes them, two
        characters a tile) and hand: is any wait still live */
    method CheckTenpai(waits: string, hand: string) returns (r: bool)
      ensures r <==> |LiveWaits(Chunks2(waits), hand)| > 0
      ensures r <==> exists i :: 0 <= i < |Chunks2(waits)| && Count(hand, Chunks2(waits)[i]) < 4
    {
      var tenList := Chunks2(waits);
      var retList: seq<string> := [];
      var i := 0;
      while i < |tenList|
        invariant 0 <= i <= |tenList|
        invariant retList == LiveWaits(tenList[..i], hand)
      {
        assert tenList[..i + 1][..i] == tenList[..i];
        if Count(hand, tenList[i]) < 4 {
          retList := retList + [tenList[i]];
        }
        i := i + 1;
      }
      assert tenList[..i] == tenList;
      r := |retList| > 0;
      LiveWaitsExist(tenList, hand);
    }

    /** `_update_player_infos`: take the engine's snapshots, track the latest
        discard, and settle the ledger once the requested tile shows as
        called */
    method UpdatePlayerInfos(snaps: seq<PlayerInfo>)
      requires Valid() && |snaps| == 4 && RiversParse(snaps)
      requires |requestTable| > 0 ==> Locatable(Tags(snaps), requestTable[0].1.turn)
      requires Resolves(snaps, requestTable) ==> MeldShown(snaps, requestTable)
      modifies this
      ensures Valid()
      ensures playerInfos == snaps
      ensures (currentTurn, lastPlayerIdx) == LatestDiscard(snaps)
      ensures Resolves(snaps, old(requestTable)) ==>
        playerCallingInfo == AddMeld(old(playerCallingInfo), snaps, old(requestTable)) && requestTable == []
      ensures !Resolves(snaps, old(requestTable)) ==>
        playerCallingInfo == old(playerCallingInfo) && requestTable == old(requestTable)
      ensures extra == old(extra) && terminated == old(terminated) && status == old(status)
      ensures lastAction == old(lastAction) && winners == old(winners)
      ensures loser == old(loser) && payoffs == old(payoffs)
    {
      playerInfos := snaps;
      var tags, maxTurn, maxIdx := ScanRivers(snaps);
      lastPlayerIdx := maxIdx;
      currentTurn := maxTurn;

      if |requestTable| > 0 && Called(tags, requestTable[0].1.turn) {
        SettleStrongest();
      }
    }

    /** gamecore.py:212-220: the requested tile shows as called, so the
        strongest request (the first with the largest action) is the one that
        happened, and becomes a meld */
    method SettleStrongest()
      requires Valid() && |playerInfos| == 4
      requires MeldShown(playerInfos, requestTable)
      modifies this
      ensures Valid()
      ensures playerCallingInfo == AddMeld(old(playerCallingInfo), old(playerInfos), old(requestTable))
      ensures requestTable == []
      ensures extra == old(extra) && terminated == old(terminated) && status == old(status)
      ensures currentTurn == old(currentTurn) && lastPlayerIdx == old(lastPlayerIdx)
      ensures lastAction == old(lastAction) && winners == old(winners) && playerInfos == old(playerInfos)
      ensures loser == old(loser) && payoffs == old(payoffs)
    {
      ghost var j := Strongest(requestTable);
      var actIdx := StrongestRequest(requestTable);
      Dicts.GetAt(requestTable, j);
      assert 0 <= actIdx < 4 && Dicts.Get(requestTable, actIdx).Some?;
      UpdatePlayerFuuro(actIdx);
    }

    /** the loop at gamecore.py:189-198: the tags of every river, seat by
        seat, and the latest last discard with the lowest seat making it */
    static method ScanRivers(snaps: seq<PlayerInfo>) returns (tags: seq<string>, maxTurn: int, maxIdx: int)
      requires RiversParse(snaps)
      ensures tags == Tags(snaps)
      ensures (maxTurn, maxIdx) == LatestDiscard(snaps)
    {
      maxTurn, maxIdx := -1, -1;
      tags := [];
      var idx := 0;
      while idx < |snaps|
        invariant 0 <= idx <= |snaps|
        invariant tags == Tags(snaps[..idx])
        invariant maxIdx == FirstMax(LastTurns(snaps[..idx]), -1)
        invariant maxTurn == MaxValue(LastTurns(snaps[..idx]), -1)
      {
        var river := snaps[idx].river;
        TagsPrefix(snaps, idx);
        LastTurnsPrefix(snaps, idx);
        FirstMaxStep(LastTurns(snaps[..idx]), LastTurn(snaps[idx]), -1);
        tags := tags + RiverTags(river);
        if |river| > 0 {
          var lastTurn := TurnOf(river[|river| - 1]).value;
          if lastTurn > maxTurn {
            maxTurn, maxIdx := lastTurn, idx;
          }
        }
        idx := idx + 1;
      }
      assert snaps[..idx] == snaps;
    }

    /** the loop at gamecore.py:214-218: the seat of the first request with
        the largest action, -1 when no action is above 0 */
    static method StrongestRequest(d: Ledger) returns (actIdx: int)
      ensures Strongest(d) == -1 ==> actIdx == -1
      ensures Strongest(d) >= 0 ==> actIdx == d[Strongest(d)].0
    {
      var action := 0;
      actIdx := -1;
      ghost var j := -1;
      var k := 0;
      while k < |d|
        invariant 0 <= k <= |d|
        invariant j == FirstMax(Actions(d[..k]), 0)
        invariant action == MaxValue(Actions(d[..k]), 0)
        invariant actIdx == if j == -1 then -1 else d[j].0
      {
        ActionsPrefix(d, k);
        FirstMaxStep(Actions(d[..k]), d[k].1.action, 0);
        var a := d[k].1.action;
        if a > action {
          action, actIdx := a, d[k].0;
          j := k;
        }
        k := k + 1;
      }
      assert d[..k] == d;
    }

    /** `_update_player_fuuro(p)`: the winning request becomes a meld made of
        the player's last call, in the category of the action, from the seat
        recorded with it; the ledger is emptied */
    method UpdatePlayerFuuro(p: int)
      requires Valid() && |playerInfos| == 4 && 0 <= p < 4
      requires Dicts.Get(requestTable, p).Some? && |playerInfos[p].calls| > 0
      modifies this
      ensures Valid()
      ensures var req := Dicts.Get(old(requestTable), p).value;
        playerCallingInfo == old(playerCallingInfo)[p := old(playerCallingInfo)[p] + [NewMeld(old(playerInfos)[p], req)]]
      ensures requestTable == []
      ensures extra == old(extra) && terminated == old(terminated) && status == old(status)
      ensures currentTurn == old(currentTurn) && lastPlayerIdx == old(lastPlayerIdx)
      ensures lastAction == old(lastAction) && winners == old(winners) && playerInfos == old(playerInfos)
      ensures loser == old(loser) && payoffs == old(payoffs)
    {
      var req := Dicts.Get(requestTable, p).value;
      assert IsForwardCall(req.action);
      ForwardCallCategory(req.action);
      var calls := playerInfos[p].calls;
      playerCallingInfo := playerCallingInfo[p :=
        playerCallingInfo[p] + [CallingInfo(calls[|calls| - 1], ToCategory(req.action).value, req.fromIdx)]];
      requestTable := [];
    }

    /** `_render_ankan_player_request(p)`: a concealed quad, made of the
        player's last call and attributed to the player */
    method RenderAnkan(p: int)
      requires Valid() && |playerInfos| == 4 && 0 <= p < 4 && |playerInfos[p].calls| > 0
      modifies this
      ensures Valid()
      ensures var calls := old(playerInfos)[p].calls;
        playerCallingInfo == old(playerCallingInfo)[p := old(playerCallingInfo)[p] + [CallingInfo(calls[|calls| - 1], Ankan, p)]]
      ensures extra == old(extra) && terminated == old(terminated) && status == old(status)
      ensures currentTurn == old(currentTurn) && lastPlayerIdx == old(lastPlayerIdx)
      ensures lastAction == old(lastAction) && winners == old(winners) && playerInfos == old(playerInfos)
      ensures requestTable == old(requestTable) && loser == old(loser) && payoffs == old(payoffs)
    {
      var calls := playerInfos[p].calls;
      playerCallingInfo := playerCallingInfo[p := playerCallingInfo[p] + [CallingInfo(calls[|calls| - 1], Ankan, p)]];
    }

    /** `_render_kakan_player_request(p, before)`: find the meld the engine
        added since `before`, and mark the first meld holding its tile as an
        added quad */
    method RenderKakan(p: int, before: PlayerInfo)
      requires Valid() && |playerInfos| == 4 && 0 <= p < 4 && |playerInfos[p].calls| > 0
      modifies this
      ensures Valid()
      ensures var calls := old(playerInfos)[p].calls;
        var fuuro := calls[NewCallIndex(before.calls, calls)];
        playerCallingInfo == old(playerCallingInfo)[p := PromoteAddedQuad(old(playerCallingInfo)[p], Prefix2(fuuro))]
      ensures extra == old(extra) && terminated == old(terminated) && status == old(status)
      ensures currentTurn == old(currentTurn) && lastPlayerIdx == old(lastPlayerIdx)
      ensures lastAction == old(lastAction) && winners == old(winners) && playerInfos == old(playerInfos)
      ensures requestTable == old(requestTable) && loser == old(loser) && payoffs == old(payoffs)
    {
      var lastFuuro := before.calls;
      var fuuroList := playerInfos[p].calls;
      var k := 0;
      while k < |fuuroList| - 1 && fuuroList[k] in lastFuuro
        invariant 0 <= k < |fuuroList|
        invariant NewCallFrom(lastFuuro, fuuroList, 0) == NewCallFrom(lastFuuro, fuuroList, k)
        decreases |fuuroList| - k
      {
        k := k + 1;
      }
      var tile := Prefix2(fuuroList[k]);
      var melds := playerCallingInfo[p];
      var i := 0;
      while i < |melds| && !Contains(melds[i].callingStr, tile)
        invariant 0 <= i <= |melds|
        invariant forall m :: 0 <= m < i ==> !Contains(melds[m].callingStr, tile)
        decreases |melds| - i
      {
        i := i + 1;
      }
      HoldingAt(melds, tile, i);
      if i < |melds| {
        playerCallingInfo := playerCallingInfo[p := melds[i := melds[i].(callingType := Kakan)]];
      }
    }

    /** gamecore.py:290-295: a forward call is recorded under the acting seat
        with the current turn and the seat it would be taken from */
    method RecordRequest(p: int, a: int)
      requires Valid() && 0 <= p < 4
      modifies this
      ensures Valid()
      ensures requestTable == Record(old(requestTable), p, a, currentTurn, lastPlayerIdx)
      ensures extra == old(extra) && terminated == old(terminated) && status == old(status)
      ensures currentTurn == old(currentTurn) && lastPlayerIdx == old(lastPlayerIdx)
      ensures lastAction == old(lastAction) && winners == old(winners) && playerInfos == old(playerInfos)
      ensures playerCallingInfo == old(playerCallingInfo) && loser == old(loser) && payoffs == old(payoffs)
    {
      if IsForwardCall(a) {
        RecordKeepsLedger(requestTable, p, a, currentTurn, lastPlayerIdx);
        requestTable := Dicts.Put(requestTable, p, Request(a, currentTurn, lastPlayerIdx));
      }
    }

    /** recording a request of a seat keeps the ledger well formed */
    lemma RecordKeepsLedger(d: Ledger, p: int, a: int, turn: int, from: int)
      requires LedgerOk(d) && 0 <= p < 4
      ensures LedgerOk(Record(d, p, a, turn, from))
    {
      if IsForwardCall(a) {
        RecordSpec(d, p, a, turn, from);
      }
    }

    /** gamecore.py:326-337: what the action itself changes once the new
        snapshots are in: a quad is rendered, a win is booked */
    method Aftercare(p: int, a: int, before: PlayerInfo)
      requires Valid() && 0 <= p < 4 && |playerInfos| == 4
      requires a == AnKan || a == KaKan ==> |playerInfos[p].calls| > 0
      modifies this
      ensures Valid()
      ensures a == AnKan ==> var calls := old(playerInfos)[p].calls;
        playerCallingInfo == old(playerCallingInfo)[p := old(playerCallingInfo)[p] + [CallingInfo(calls[|calls| - 1], Ankan, p)]]
      ensures a == KaKan ==> var calls := old(playerInfos)[p].calls;
        playerCallingInfo == old(playerCallingInfo)[p :=
          PromoteAddedQuad(old(playerCallingInfo)[p], Prefix2(calls[NewCallIndex(before.calls, calls)]))]
      ensures a != AnKan && a != KaKan ==> playerCallingInfo == old(playerCallingInfo)
      ensures lastPlayerIdx == if a == Tsumo then p else old(lastPlayerIdx)
      ensures lastAction == if a == Tsumo then Tsumo else old(lastAction)
      ensures winners == if a == Tsumo || a == Ron then old(winners) + [p] else old(winners)
      ensures loser == if a == Ron then old(lastPlayerIdx) else old(loser)
      ensures extra == old(extra) && terminated == old(terminated) && status == old(status)
      ensures currentTurn == old(currentTurn) && playerInfos == old(playerInfos)
      ensures requestTable == old(requestTable) && payoffs == old(payoffs)
    {
      if a == AnKan {
        RenderAnkan(p);
      } else if a == KaKan {
        RenderKakan(p, before);
      } else if a == Tsumo {
        winners := winners + [p];
        lastPlayerIdx := p;
        lastAction := a;
      } else if a == Ron {
        winners := winners + [p];
        loser := lastPlayerIdx;
      }
    }

    /** one move of the hand in progress (the first branch of `step`): the
        acting seat `p` has chosen `a`; the engine then reports the players'
        snapshots `snaps`, whether the hand is `over`, and its raw payoffs */
    method Step(p: int, a: int, snaps: seq<PlayerInfo>, over: bool, raw: seq<int>)
      requires Valid() && 0 <= p < 4
      requires a == KaKan ==> |playerInfos| == 4
      requires |snaps| == 4 && RiversParse(snaps)
      requires var d := Record(requestTable, p, a, currentTurn, lastPlayerIdx);
        (|d| > 0 ==> Locatable(Tags(snaps), d[0].1.turn))
        && (Resolves(snaps, d) ==> MeldShown(snaps, d))
      requires a == AnKan || a == KaKan ==> |snaps[p].calls| > 0
      requires over ==> |raw| == 4
      requires over && (a == Tsumo || lastAction == Tsumo) ==> |winners| == if a == Tsumo || a == Ron then 0 else 1
      modifies this
      ensures Valid()
      ensures over ==> lastAction == Tsumo ==> |winners| == 1
      ensures over ==>
        var s := Settle(raw, lastAction, winners, loser, old(status).honba, old(status).riichibo, Fee(cfg), snaps);
        payoffs == s.payoffs
        && status == old(status).(riichibo := s.riichibo, cum := AddVec(old(status).cum, s.payoffs))
      ensures playerInfos == snaps && currentTurn == LatestDiscard(snaps).0
      ensures lastPlayerIdx == if a == Tsumo then p else LatestDiscard(snaps).1
      ensures lastAction == if a == Tsumo then Tsumo else old(lastAction)
      ensures winners == if a == Tsumo || a == Ron then old(winners) + [p] else old(winners)
      ensures loser == if a == Ron then LatestDiscard(snaps).1 else old(loser)
      ensures var d := Record(old(requestTable), p, a, old(currentTurn), old(lastPlayerIdx));
        requestTable == (if Resolves(snaps, d) then [] else d)
        && (a != AnKan && a != KaKan && !Resolves(snaps, d) ==> playerCallingInfo == old(playerCallingInfo))
      ensures extra == old(extra) && terminated == old(terminated)
      ensures !over ==> status == old(status) && payoffs == old(payoffs)
    {
      RecordRequest(p, a);
      var before := PlayerInfo([], [], "", false);
      if a == KaKan {
        before := playerInfos[p];
      }
      UpdatePlayerInfos(snaps);
      Aftercare(p, a, before);
      if over {
        CalcScores(raw);
      }
    }

    /** the second branch of `step`, once the hand is over: the deal passes
        unless the dealer won or, on a draw, the dealer was tenpai (judged on
        the dealer's `waits` and `hand`); a draw also counts as no win */
    method EndHand(waits: string, hand: string)
      requires Valid() && Seated(firstOya, status)
      modifies this
      ensures Valid() && Seated(firstOya, status)
      ensures var changeOya := DealerChanges(old(status).oya, old(winners), |LiveWaits(Chunks2(waits), hand)| > 0);
        var r := Rotate(cfg, old(extra), old(status), changeOya, |old(winners)| == 0);
        extra == r.extra && status == r.status && terminated == (old(terminated) || r.ends)
        && (r.ends ==> Kept()) && (!r.ends ==> Fresh())
      ensures loser == old(loser) && payoffs == old(payoffs)
    {
      var changeOya;
      if |winners| > 0 {
        changeOya := status.oya !in winners;
      } else {
        var tenpai := CheckTenpai(waits, hand);
        changeOya := !tenpai;
      }
      Reset(changeOya, |winners| == 0);
    }

    /** `calc_scores` on the engine's raw payoffs: add the honba fees and the
        riichi sticks, or bank the new sticks on a draw, and carry the result
        into the cumulative scores */
    method CalcScores(raw: seq<int>)
      requires Valid() && |raw| == 4
      requires lastAction == Tsumo ==> |winners| == 1
      modifies this
      ensures Valid()
      ensures var s := Settle(raw, old(lastAction), old(winners), old(loser), old(status).honba,
                              old(status).riichibo, Fee(cfg), old(playerInfos));
        payoffs == s.payoffs
        && status == old(status).(riichibo := s.riichibo, cum := AddVec(old(status).cum, s.payoffs))
      ensures extra == old(extra) && terminated == old(terminated)
      ensures currentTurn == old(currentTurn) && lastPlayerIdx == old(lastPlayerIdx)
      ensures lastAction == old(lastAction) && winners == old(winners) && playerInfos == old(playerInfos)
      ensures requestTable == old(requestTable) && loser == old(loser)
      ensures playerCallingInfo == old(playerCallingInfo)
    {
      var pay, sticks := Adjust(raw, lastAction, winners, loser, status.honba, status.riichibo, Fee(cfg), playerInfos);
      payoffs := pay;
      status := status.(riichibo := sticks, cum := AddVec(status.cum, pay));
    }

    /** the body of `calc_scores` up to gamecore.py:383, on values: the
        adjusted payoffs and the sticks left on the table */
    static method Adjust(raw: seq<int>, lastAction: int, winners: seq<int>, loser: int,
                         honba: int, riichibo: int, fee: int, infos: seq<PlayerInfo>)
      returns (pay: seq<int>, sticks: int)
      requires |raw| == 4 && forall i :: 0 <= i < |winners| ==> 0 <= winners[i] < 4
      requires lastAction == Tsumo ==> |winners| == 1
      requires lastAction != Tsumo && |winners| > 0 ==> -4 <= loser < 4
      ensures Settlement(pay, sticks) == Settle(raw, lastAction, winners, loser, honba, riichibo, fee, infos)
    {
      pay := raw;
      sticks := riichibo;
      if lastAction == Tsumo {
        var w := winners[0];
        pay := pay[w := pay[w] + 100 * 4 * honba * fee + 1000 * sticks];
        pay := Deduct(pay, 100 * honba * fee);
        sticks := 0;
      } else if |winners| > 0 {
        var i := HeadWinner(loser, winners);
        pay := pay[i % 4 := pay[i % 4] + 100 * 3 * honba * fee + 1000 * sticks];
        pay := pay[Seat(loser) := pay[Seat(loser)] - 100 * 3 * honba * fee];
        sticks := 0;
      } else {
        var k := 0;
        while k < |infos|
          invariant 0 <= k <= |infos|
          invariant sticks == riichibo + RiichiCount(infos[..k])
        {
          RiichiPrefix(infos, k);
          sticks := sticks + B(infos[k].riichi);
          k := k + 1;
        }
        assert infos[..k] == infos;
      }
    }

    /** the loop at gamecore.py:367-371: where the scan of the seats after
        the discarder stops */
    static method HeadWinner(loser: int, winners: seq<int>) returns (i: int)
      ensures i == Head(loser, winners)
    {
      i := loser + 1;
      while i < loser + 4 && i % 4 !in winners
        invariant loser + 1 <= i <= loser + 4
        invariant Head(loser, winners) == HeadFrom(loser, winners, i - loser)
        decreases loser + 4 - i
      {
        i := i + 1;
      }
    }

    /** `calc_final_scores` in integers: seat 0 absorbs the rounding so the
        scores sum to zero, the sticks are dropped, the seats are ranked by
        score and then by priority from the first dealer, and the scores go
        back to absolute points; the ranking is returned */
    method CalcFinalScores() returns (sequence: seq<int>)
      requires Valid() && Seated(firstOya, status)
      modifies this
      ensures Valid() && Seated(firstOya, status)
      ensures status == old(status).(riichibo := 0, cum := Deduct(ZeroSum(old(status).cum), -cfg.initPoints))
      ensures multiset(sequence) == multiset(AllSeats)
      ensures Seats(sequence, 4) && Ranked(ZeroSum(old(status).cum), PriorityFrom(firstOya), sequence)
      ensures extra == old(extra) && terminated == old(terminated)
      ensures currentTurn == old(currentTurn) && lastPlayerIdx == old(lastPlayerIdx)
      ensures lastAction == old(lastAction) && winners == old(winners) && playerInfos == old(playerInfos)
      ensures requestTable == old(requestTable) && loser == old(loser) && payoffs == old(payoffs)
      ensures playerCallingInfo == old(playerCallingInfo)
    {
      var cum := status.cum;
      cum := cum[0 := -Sum(cum[1..])];
      assert cum == ZeroSum(old(status).cum);
      var oldOya := (status.oya - status.gameCount) % 4;
      FirstDealer(firstOya, status.gameCount);
      assert oldOya == firstOya;
      sequence := FinalRanking(cum, oldOya);
      status := status.(riichibo := 0, cum := Deduct(cum, -cfg.initPoints));
    }

    /** gamecore.py:400-408: the seats from first to last place, given the
        first dealer */
    static method FinalRanking(cum: seq<int>, oldOya: int) returns (sequence: seq<int>)
      requires |cum| == 4 && 0 <= oldOya < 4
      ensures multiset(sequence) == multiset(AllSeats)
      ensures Seats(sequence, 4) && Ranked(cum, PriorityFrom(oldOya), sequence)
    {
      var priority := SeatPriorities(oldOya);
      sequence := Ranking(cum, priority, AllSeats);
    }

    /** the loop at gamecore.py:403-404: `priority_seats[seat % 4] = i` for
        the seats in turn order from the first dealer */
    static method SeatPriorities(oldOya: int) returns (priority: seq<int>)
      requires 0 <= oldOya < 4
      ensures priority == PriorityFrom(oldOya)
    {
      priority := [0, 0, 0, 0];
      assert priority == PartialPriorities(oldOya, 0);
      var i := 0;
      while i < 4
        invariant 0 <= i <= 4
        invariant priority == PartialPriorities(oldOya, i)
      {
        var seat := oldOya + i;
        PriorityStep(oldOya, i);
        WrapMod(seat);
        priority := priority[seat % 4 := i];
        i := i + 1;
      }
      PrioritiesDone(oldOya);
    }
  }
}
