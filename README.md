# Qt-pymahjong match orchestrator, in Dafny

Qt-pymahjong plays four-player riichi mahjong against computer opponents. A
single hand is run by the external `pymahjong` engine. The class
`MahjongGameCore` in `gamecore.py` runs the match around it:

- it keeps the match status: dealer (`oya`), prevailing wind, hand count,
  honba, riichi sticks and cumulative scores;
- it decides after each hand whether the match goes on, gets an extra hand,
  or ends;
- it follows the rivers to know the latest discard;
- it keeps a ledger of speculative calls (chi, pon, open quad) and settles
  it once the engine shows the called tile;
- it renders concealed and added quads;
- it adds honba fees and riichi sticks to the engine's raw payoffs;
- at the end it ranks the seats by score, with ties going to the seat that
  dealt earlier.

`utils.py` holds the pure helpers. They cover tile notation, the glyph table
`JI_DECODE`, the action numbering and meld categories, meld rendering with
seat arrows, river-token turn parsing and the yaku suffix lookup.
`ui_utils.py` renders a hand, a river, a player's melds and the round header
as text.

The Dafny modules follow that structure:

- `Wrappers` (text.dfy) holds Option and Result.
- `Text` (text.dfy) holds the Python `str` operations the code relies on:
  `in`, `find`/`index`, `replace`, `count`, `join`, `translate` used to
  delete characters, `isdigit`/`int` on ASCII, and `str` of an integer.
- `Dicts` (text.dfy) models a Python dict that keeps insertion order, as a
  sequence of pairs.
- `Utils` (utils.dfy) models `utils.py`.
- `UiUtils` (ui_utils.dfy) models `ui_utils.py`. `print_river`,
  `print_callings` and its replace loop are methods with loops, proved
  against functions that state what they print.
- `MatchRules` (matchrules.dfy) states the orchestrator's rules as functions
  on values. It covers the rotation and termination decision, the turn
  tracker, the call resolver, the added-quad promotion, the settlement, the
  tenpai filter and the final ranking, with lemmas about each.
- `GameCore` (gamecore.dfy) is the class `MahjongGameCore`. Its fields are
  the source's fields, and its methods update them in place. Each method is
  proved against the `MatchRules` functions, and the class invariant
  `Valid()` holds throughout.

The engine is not modelled. What it reports comes into the methods as
parameters:

- the players' snapshots: river tokens, `Calls` tokens, hand, riichi flag;
- whether the hand is over;
- the raw payoffs;
- the dealer's waits.

The action constants of `pymahjong` are not visible. The model numbers them
as `ACTION_SEQ` in `utils.py` implies: CHILEFT=34 up to TSUMO=43, then
44-46 for the nine-terminal draw, PASS_RIICHI and PASS_RESPONSE.

In the helper functions, where Python raises, the model returns `None` or
an `Err`. This covers:
- the asserts of `notation_to_idx`, `to_category` and
  `get_turn_from_river_tile` (the last as called from `print_river`);
- `str.index` on a missing parenthesis;
- an `IndexError` on `ARROWS`.

Raises inside `gamecore.py` are preconditions of the methods that contain
them, not error results. These come in two kinds:
- `gamecore.py`'s own asserts, for example one tsumo winner, a locatable
  requested turn, or a settled request that is a forward call.
- Failures that need ill-formed engine data. Each is named under
  "## Left out".

## Model

| member | source | states |
|---|---|---|
| GameCore.MahjongGameCore.constructor | gamecore.py:41-81 | a new match: the given configuration and first dealer, no extra hand, hand count, honba and sticks zero, scores all zero, east wind, an empty per-hand context |
| GameCore.MahjongGameCore.StartHand | gamecore.py:134-144 | the per-hand context is reset: turn 0, no last player, no last action, no winners, no melds, no snapshots, an empty ledger; the match status is untouched |
| GameCore.MahjongGameCore.Reset | gamecore.py:72-144 | the new `extra` and status are those `Rotate` decides; the match is terminated exactly when it was or `Rotate` ends it; an ending match keeps the hand's context, a continuing one starts a fresh hand; the seating invariant is kept |
| GameCore.MahjongGameCore.Advance | gamecore.py:83-129 | the step-by-step update of extra, count, dealer, honba and wind gives exactly the `Rotate` decision |
| MatchRules.Rotate | gamecore.py:83-129 | at most one extra hand per call, only with overtime on, fewer than four extra and every score below the target, never above four; the match ends exactly on a termination condition or the dealer sweep, and then the status is unchanged, count rolled back; otherwise the count grows by `change_oya`, `oya' = (oya + change_oya) % 4`, honba +1 on a draw or a repeat and 0 otherwise, the wind is `WINDS[count // 4 % 4]`, sticks and scores unchanged |
| MatchRules.RotateBounded | gamecore.py:93-104 | a match that goes on has played fewer hands than scheduled plus extra, hence at most four more than scheduled |
| MatchRules.SweepLeader | gamecore.py:107-117 | when the dealer-first fast termination fires, the dealer is strictly ahead of every other seat |
| MatchRules.DealerChanges | gamecore.py:347-350 | the deal stays exactly when the dealer is among the winners, or nobody won and the dealer is tenpai |
| MatchRules.RotateKeepsSeating | gamecore.py:91-121 | the dealer always sits where the first dealer plus the number of dealer changes puts it |
| MatchRules.DealerMod | gamecore.py:121 | the dealer after `n` changes is `(first + n) % 4` |
| MatchRules.NextSeatMod | gamecore.py:121 | passing the deal is adding one seat modulo four |
| MatchRules.FirstDealer | gamecore.py:401 | `(oya - game_count) % 4` recovers the first dealer |
| MatchRules.Max | gamecore.py:86 | `np.max`: an element of the scores, at least every element |
| MatchRules.Min | gamecore.py:96 | `np.min`: an element of the scores, at most every element |
| MatchRules.ArgMax | gamecore.py:112 | the first seat holding the maximum |
| MatchRules.SecondMax | gamecore.py:114 | `-np.sort(-s)[1]`: the largest score among the other seats, below the maximum exactly when no other seat ties it |
| GameCore.MahjongGameCore.CheckTenpai | gamecore.py:146-163 | true exactly when some two-character wait occurs fewer than four times in the hand text, i.e. the filtered list is non-empty |
| MatchRules.Chunks2 | gamecore.py:148 | the waits cut at the even positions: half as many pieces as characters, rounded up, each of two characters except possibly the last, which has one |
| MatchRules.Chunks2Snoc | gamecore.py:148 | the pieces are those of the waits before the last cut, then the last piece |
| MatchRules.Chunks2Concat | gamecore.py:148 | the pieces concatenate back to the waits |
| MatchRules.LiveWaits | gamecore.py:159-162 | the kept waits are exactly the waits held fewer than four times |
| MatchRules.LiveWaitsExist | gamecore.py:159-163 | some wait is kept exactly when some wait is held fewer than four times |
| GameCore.MahjongGameCore.UpdatePlayerInfos | gamecore.py:178-220 | the snapshots are stored; turn and last player are the latest discard; when the ledger resolves, exactly the strongest request becomes a meld and the ledger empties; otherwise melds and ledger are unchanged; the match status is untouched |
| GameCore.MahjongGameCore.ScanRivers | gamecore.py:189-200 | the loop gives the tags of every river and the latest last discard with its seat |
| MatchRules.LatestDiscard | gamecore.py:189-200 | the turn is at least every player's last turn and is one of them; the seat is the lowest one reaching it; both are -1 exactly when every river is empty |
| MatchRules.FirstMax | gamecore.py:189-198 | a running maximum with a strict `>`: the first position holding the maximum if it exceeds the floor, -1 exactly when nothing does |
| MatchRules.MaxValue | gamecore.py:189-198 | the value the running maximum holds: at least the floor and every element |
| MatchRules.FirstMaxStep | gamecore.py:197-198 | one more element moves the maximum exactly when it is strictly larger |
| MatchRules.LastTurns | gamecore.py:194-196 | the turn of every player's last discard; an entry is -1 exactly when that river is empty, and never below -1 |
| MatchRules.LastTurnsPrefix | gamecore.py:191-196 | the last turns of one more player extend those of the earlier ones |
| MatchRules.RiverTagsSplit | gamecore.py:192-193 | every token of at least two characters is its tile name `t[:2]` followed by its tag `t[2:]` |
| MatchRules.TagsPrefix | gamecore.py:191-193 | the tags of one more player extend those of the earlier ones by that player's river tags |
| MatchRules.Segment | gamecore.py:207-211 | the text from the first occurrence of the requested turn up to the next space holds no space |
| GameCore.MahjongGameCore.SettleStrongest | gamecore.py:212-220 | the melds become `AddMeld` of the ledger: the strongest request becomes a meld of its seat; the ledger is emptied; nothing else changes |
| GameCore.MahjongGameCore.StrongestRequest | gamecore.py:214-219 | the seat of the first request with the largest action, -1 when no action is above 0 |
| MatchRules.Strongest | gamecore.py:214-218 | the position of the first request with the largest action; -1 exactly when no action is positive; ties go to the earliest entry |
| MatchRules.NewMeld | gamecore.py:229-239 | the meld is the seat's last `Calls` token, in the category `to_category` gives the action (chi, pon or open quad), from the recorded seat |
| GameCore.MahjongGameCore.UpdatePlayerFuuro | gamecore.py:222-240 | exactly one meld, `NewMeld` of the request, is appended to that seat's melds; the ledger is emptied; nothing else changes |
| GameCore.MahjongGameCore.RenderAnkan | gamecore.py:242-252 | exactly one concealed quad from the seat's last `Calls` token, attributed to the seat, is appended; nothing else changes |
| GameCore.MahjongGameCore.RenderKakan | gamecore.py:254-268 | the seat's melds become `PromoteAddedQuad` of them on the tile of the new call; nothing else changes |
| MatchRules.NewCallIndex | gamecore.py:257-261 | the first new token not among the earlier calls, or the last token when every one was there |
| MatchRules.NewCallFrom | gamecore.py:259-261 | the loop's stop from position `i`: every token before it was there already |
| MatchRules.FirstHolding | gamecore.py:263-264 | the first meld whose text contains the tile, -1 when none does |
| MatchRules.HoldingAt | gamecore.py:263-268 | a scan that stopped at `i` found the first holding meld |
| MatchRules.PromoteAddedQuad | gamecore.py:263-268 | same length, same texts and seats; only the first meld holding the tile can change, and it becomes an added quad; if any meld holds the tile, one at or before it is promoted |
| GameCore.MahjongGameCore.RecordRequest | gamecore.py:290-295 | the ledger becomes `Record` of it; nothing else changes |
| MatchRules.Record | gamecore.py:290-295 | a non-forward call leaves the ledger alone; after a forward call the seat reads its `(action, turn, from)`, every other seat reads what it read before, and the ledger grows by at most that one entry |
| MatchRules.RecordSpec | gamecore.py:290-295 | with one entry per seat, recording keeps keys distinct, the seat reads its new request, every other seat reads what it did |
| GameCore.MahjongGameCore.RecordKeepsLedger | gamecore.py:290-295 | recording keeps the ledger well formed: distinct seats, forward calls only |
| GameCore.MahjongGameCore.Aftercare | gamecore.py:326-337 | a concealed quad is rendered, an added quad promoted; a tsumo books the winner, the last player and the last action; a ron books the winner and the discarder as loser; nothing else changes |
| GameCore.MahjongGameCore.Step | gamecore.py:270-344 | the request is recorded, the snapshots taken, the turn and latest discarder tracked, the ledger settled or kept, the win booked; when the hand is over the payoffs and status are the `Settle` result added to the scores |
| GameCore.MahjongGameCore.EndHand | gamecore.py:345-352 | the deal passes as `DealerChanges` says on the dealer's live waits, and the match status becomes what `Rotate` decides with a draw counted as no win |
| GameCore.MahjongGameCore.CalcScores | gamecore.py:354-385 | payoffs and sticks are the `Settle` result; the cumulative scores grow by exactly the adjusted payoffs; nothing else changes |
| GameCore.MahjongGameCore.Adjust | gamecore.py:355-383 | the step-by-step adjustment gives exactly the `Settle` result |
| MatchRules.Settle | gamecore.py:358-383 | four payoffs; after a win the sticks are 0 and the total grows by exactly 1000 per stick, the honba parts summing to zero; after a draw the payoffs are the raw ones and every riichi player adds a stick |
| MatchRules.DeductSum | gamecore.py:364 | taking the same amount from every seat lowers the total by that amount once per seat |
| MatchRules.SelfDrawn | gamecore.py:358-365 | the winner nets +300 per honba times the fee plus 1000 per stick; every other seat pays 100 per honba times the fee |
| MatchRules.SelfDrawnSum | gamecore.py:358-365 | a self-drawn win changes the total by the sticks alone |
| MatchRules.HeadFrom | gamecore.py:367-371 | the stop of the loop from offset `k`: no earlier seat is a winner, and it stops at a winner or at `loser + 4` |
| MatchRules.Head | gamecore.py:367-371 | the first seat after the loser, going round, that is a winner; `loser + 4` when none is |
| GameCore.MahjongGameCore.HeadWinner | gamecore.py:367-371 | the loop stops where `Head` says |
| MatchRules.HeadWins | gamecore.py:367-371 | with any winner, the stop is at a winner |
| MatchRules.DiscardWin | gamecore.py:372-378 | the head winner gains 300 per honba times the fee plus 1000 per stick, the loser (numpy index) pays 300 per honba times the fee, every other seat is unchanged |
| MatchRules.DiscardWinSum | gamecore.py:366-379 | a discard win changes the total by the sticks alone |
| MatchRules.RiichiCount | gamecore.py:381-382 | the number of riichi players, at most the number of players |
| MatchRules.RiichiPrefix | gamecore.py:381-382 | one more player adds one stick exactly when in riichi |
| MatchRules.AddVecSum | gamecore.py:385 | adding the payoffs to the scores adds their total to the scores' total |
| MatchRules.HandTotal | gamecore.py:358-385 | after a hand the cumulative total has grown by the engine's raw total, plus 1000 per stick when someone won |
| GameCore.MahjongGameCore.CalcFinalScores | gamecore.py:388-415 | seat 0 absorbs the difference so the scores sum to zero; the sticks are dropped; the result is a permutation of the four seats ranked by score, ties broken by dealing order from the first dealer; the scores go back to absolute points |
| MatchRules.ZeroSum | gamecore.py:390-392 | the scores sum to zero and only seat 0 changes |
| GameCore.MahjongGameCore.FinalRanking | gamecore.py:400-408 | a permutation of the four seats in which no seat is below one it is ahead of |
| GameCore.MahjongGameCore.SeatPriorities | gamecore.py:400-404 | the priority loop gives `PriorityFrom` of the first dealer |
| MatchRules.PriorityFrom | gamecore.py:400-404 | the first dealer has priority 0, and the four priorities are distinct values in 0..3 |
| MatchRules.PartialPriorities | gamecore.py:400-404 | the priority vector after `i` rounds of the loop has four entries |
| MatchRules.PriorityStep | gamecore.py:403-404 | one round of `priority_seats[seat % 4] = i` |
| MatchRules.PrioritiesDone | gamecore.py:403-404 | after four rounds the loop has built `PriorityFrom` |
| MatchRules.WrapMod | gamecore.py:404 | `seat % 4` for the seats the loop visits |
| MatchRules.BackMod | gamecore.py:401-404 | how far a seat sits after the first dealer, modulo four |
| MatchRules.Insert | gamecore.py:406-408 | inserting a seat into a ranked list keeps it ranked and adds exactly that seat |
| MatchRules.RankedBefore | gamecore.py:406-408 | a seat ahead of the head of a ranked list can go in front |
| MatchRules.InsertKeeps | gamecore.py:406-408 | the head of a ranked list that the seat is not ahead of stays in front |
| MatchRules.Ranking | gamecore.py:406-408 | `np.argsort` of the nudged scores: a permutation of the seats, ranked by score then priority |
| Text.Find | gamecore.py:209 | `str.find`: -1 exactly when the pattern does not occur, else its first occurrence |
| Text.FindFrom | gamecore.py:209 | the search from position `i`: an occurrence with none before it, or -1 when none follows |
| Text.Strip | utils.py:179 | `translate` with deleted characters: the result holds none of them and is no longer |
| Text.DigitChar | utils.py:181 | the ASCII digit of a value below ten reads back as that value |
| Text.NatToStringRoundTrip | utils.py:180-181 | the decimal text of a number is all digits and `int` of it is the number |
| Text.ReplaceAbsent | ui_utils.py:48-49 | `replace` of a pattern the text lacks leaves the text unchanged, so the `in` guard changes nothing |
| Text.ReplaceAround | ui_utils.py:46-49 | `replace` cannot match across a character the pattern lacks |
| Dicts.Keys | gamecore.py:215 | the keys of a dict, in insertion order |
| Dicts.KeyIndex | gamecore.py:229 | the position of a key, -1 exactly when absent |
| Dicts.KeyIndexFrom | gamecore.py:229 | the key search from position `n` |
| Dicts.Put | gamecore.py:291 | `d[k] = v`: afterwards `k` reads `v` and every other key reads what it read before; an existing key keeps the key order, a new key is appended to it |
| Dicts.GetAt | gamecore.py:229 | with distinct keys, `get` of an entry's key finds that entry's value |
| Dicts.PutProperties | gamecore.py:291 | assignment keeps keys distinct, makes the key read its value, leaves every other key alone, and keeps or extends the key order |
| Dicts.PutDistinct | gamecore.py:291 | assignment keeps keys distinct |
| Dicts.PutOther | gamecore.py:291 | assignment leaves every other key alone |
| Dicts.PutKeys | gamecore.py:291 | assignment keeps the key order, appending a new key |
| Utils.CategoryOf | utils.py:69-74 | `CallingCategory(v)`: defined exactly for 0..4, with that enum value |
| Utils.ToCategory | utils.py:76-89 | keys outside 0..4 and CHILEFT..PASS_RIICHI fail the assert; 0..4 map to themselves; chi to Shun, PON to Ko, ANKAN to Ankan, MINKAN to Minkan, KAKAN to Kakan; RIICHI..PASS_RIICHI raise ValueError |
| Utils.ForwardCallCategory | utils.py:170-171 | every forward call has a category, a sequence, a triplet or an open quad |
| Utils.SuitIndex | utils.py:66 | `"mpsz".index(c)`: the position of the suit, -1 exactly where it raises |
| Utils.TileNames | utils.py:55 | the names the comprehension generates: digit `i % 9 + 1` then suit `i / 9` |
| Utils.NotationToIdx | utils.py:61-66 | defined exactly on a digit followed by a suit letter, and then in 0..35 |
| Utils.NotationRoundTrip | utils.py:55-66 | `notation_to_idx(TILE_LIST[i]) == i` for every tile |
| Utils.NotationToTile | utils.py:61-66 | a name that is not a red five and has an index below 34 is `TILE_LIST` at that index |
| Utils.RedFiveNotation | utils.py:64-65 | `0x` has the index of `5x` |
| Utils.Entries | utils.py:10-24 | the first `n` entries of JI_DECODE in insertion order |
| Utils.KeySlot | utils.py:10-24 | where a key sits in JI_DECODE, -1 for a non-key; keys have the shape of a digit or `*` before a suit or `*` |
| Utils.EntrySlot | utils.py:10-24 | every entry's key leads back to that entry |
| Utils.KeyAtSlot | utils.py:10-24 | a string with a slot is the key stored there |
| Utils.JiDecodeKeyShapes | utils.py:10-24 | JI_DECODE has 38 entries, all keys of the two-character shape |
| Utils.JiDecodeDistinct | utils.py:10-24 | no key of JI_DECODE is inserted twice |
| Utils.TileExpLookup | utils.py:27-28 | `tile_exp` is `JI_DECODE.get(tile, tile)`: the glyph of a key, the string itself otherwise |
| Utils.GlyphInverse | utils.py:12-17 | the tile can be read back from its glyph |
| Utils.GlyphsDistinct | utils.py:12-17 | no two tiles of TILE_LIST share a glyph |
| Utils.TileListGlyph | utils.py:55-56 | `tile_exp` renders every tile of TILE_LIST as its one glyph |
| Utils.RedFiveGlyph | utils.py:19 | a red five renders as the glyph of the plain five followed by `*` |
| Utils.Arrow | utils.py:58 | `ARROWS[i]`: defined exactly for -4..3, and an arrow |
| Utils.ArrowSlot | utils.py:124-135 | where the arrow goes: after the first `(` from seat 3, before the first `)` otherwise, -1 when that is missing |
| Utils.InsertAt | utils.py:128-134 | one character put in at a position; taking it out gives the text back |
| Utils.FindChar | utils.py:103-104 | the first occurrence of a character is what `index` finds |
| Utils.ParenthesizedTile | utils.py:101-108 | `__find_parenthized` reads back the text between the first parentheses |
| Utils.CallingText | utils.py:110-138 | a concealed quad is `**tt**`; a sequence or triplet gets exactly one arrow at `ArrowSlot` with the rest unchanged, and fails exactly when the parenthesis or the arrow is missing; an open or added quad is the quad text around the parenthesised tile |
| Utils.OpenQuadText | utils.py:111-117 | an open quad from seat 3 puts the arrow before the called tile, from any other seat after it |
| Utils.TileExtra | utils.py:178 | `tile[2:]`: the characters after the first two, empty for a short token |
| Utils.TileSplit | utils.py:178 | a token of at least two characters is its first two characters followed by `tile[2:]` |
| Utils.TileExpNoBreak | utils.py:27-28 | `tile_exp` brings in no line break: none of the glyphs of `JI_DECODE` is one |
| Utils.StripConcat | utils.py:179 | deleting marks works piece by piece |
| Utils.StripAll | utils.py:179 | a text of marks only is deleted entirely |
| Utils.StripKeepsAt | utils.py:179 | a character that is not a mark survives the deletion |
| Utils.DigitsKept | utils.py:179 | digits are never deleted |
| Utils.TurnOfToken | utils.py:177-181 | a token made of a two-character tile, its turn in decimal and any of `h`, `-`, `r` reads back as that turn |
| Utils.TurnOfRejects | utils.py:177-181 | a character after the tile that is neither a digit nor a mark makes the parse fail |
| Utils.YakuSuffix | utils.py:267-271 | fails exactly when the index is not below the last separator; otherwise the suffix paired with the first separator above the index |
| UiUtils.Backs | ui_utils.py:33 | `n` tile backs |
| UiUtils.ShowTiles | ui_utils.py:23-33 | a masked list shows one back per tile |
| UiUtils.PrintHand | ui_utils.py:22-37 | a masked hand shows only tile backs and spaces |
| UiUtils.MaskedHand | ui_utils.py:29-35 | a masked hand of 3k+2 tiles is backs, three spaces and one back (no apart tile when the last decodes to nothing); any other masked hand is one back per tile |
| UiUtils.TilesOf | ui_utils.py:23 | the TILE_LIST names of tile indices |
| UiUtils.GlyphsOf | ui_utils.py:23 | the glyphs of tile indices |
| UiUtils.ShowGlyphs | ui_utils.py:23-30 | an open list of real tiles shows their glyphs in order |
| UiUtils.OpenHand | ui_utils.py:22-37 | an open hand shows each glyph in order, the drawn tile of a 3k+2 hand three spaces apart |
| UiUtils.OnTable | ui_utils.py:69-70 | the tokens not called away, never more than the river |
| UiUtils.OnTableConcat | ui_utils.py:69-70 | the tokens on the table of two pieces of river are those of each |
| UiUtils.OnTableGrows | ui_utils.py:69-70 | more of the river never shows fewer tiles |
| UiUtils.FirstRiichi | ui_utils.py:65-66 | the first token tagged `r`, the river's length when none is |
| UiUtils.FirstRiichiFrom | ui_utils.py:65-66 | the first token tagged `r` from position `n` |
| UiUtils.FirstOnTable | ui_utils.py:69-70 | the first token not called away, the length when there is none |
| UiUtils.FirstOnTableFrom | ui_utils.py:69-70 | the first token not called away from position `n` |
| UiUtils.AllTurnsPrefix | ui_utils.py:72 | a prefix of tiles whose turns all parse has parsing turns too |
| UiUtils.RiverShows | ui_utils.py:69-70 | a token not called away extends the tiles shown by itself |
| UiUtils.RiverSkips | ui_utils.py:69-70 | a called token adds nothing to the tiles shown |
| UiUtils.RiichiSeen | ui_utils.py:65-66 | once the scan passes the first `r` token, the riichi flag stays set |
| UiUtils.WrapsHere | ui_utils.py:74-76 | a tile shown at position `i` is the wrapped one exactly when the riichi tile is at or before it and no earlier tile was wrapped |
| UiUtils.RiverFails | ui_utils.py:72 | a shown token whose turn does not parse makes the whole river fail |
| UiUtils.AllTurnsLast | ui_utils.py:72 | the last of a list of parsing tiles parses |
| UiUtils.AllTurnsStep | ui_utils.py:72 | one more parsing tile keeps the list parsing |
| UiUtils.PiecesStep | ui_utils.py:74-85 | the text of one more tile is appended at its end |
| UiUtils.ScanStart | ui_utils.py:57-59 | before the loop nothing is printed and no riichi seen |
| UiUtils.SkipStep | ui_utils.py:64-70 | scanning a called token changes only the riichi flag |
| UiUtils.WrapCondition | ui_utils.py:74-76 | the loop's test `encounter_r and not printed_r` picks out the tile at `WrapIndex` |
| UiUtils.PieceHere | ui_utils.py:74-85 | what one pass of the loop appends for a token on the table is that tile's `Piece` |
| UiUtils.MarkLatest | ui_utils.py:79-82 | a tile is marked `%` or `@%` exactly when its turn is the latest turn, and `%` exactly when in addition it came from the hand |
| UiUtils.PieceLineEnd | ui_utils.py:84 | the piece of the k-th tile on the table ends in a line break exactly when k + 1 is a multiple of twelve |
| UiUtils.ShowStep | ui_utils.py:72-85 | scanning a token on the table appends its piece and advances the count |
| UiUtils.ScanMeaning | ui_utils.py:57-85 | after `n` tokens the loop has printed the tiles on the table among them, with the flags and count they imply, and fails exactly when one of them carries no turn |
| UiUtils.ScanText | ui_utils.py:57-86 | the loop over the whole river, plus the final line break, is `RiverText` |
| UiUtils.NoText | ui_utils.py:72 | a shown token without a turn gives no text |
| UiUtils.PrintRiver | ui_utils.py:54-86 | the loop prints exactly `RiverText`: the tiles on the table in order, the wrapped one, the marks, a break after every twelfth and a final one |
| UiUtils.AllCalled | ui_utils.py:69-70 | a river of called tokens shows nothing |
| UiUtils.OnTableOne | ui_utils.py:69-70 | one token shows itself unless called |
| UiUtils.OnTableStart | ui_utils.py:69-70 | the tiles on the table start at the first token not called |
| UiUtils.WrappedTile | ui_utils.py:64-77 | a tile is wrapped in `<...>` exactly when some token at or after the first `r` token is on the table, and it is the first such token, even when the `r` token was called |
| UiUtils.ShownUncalled | ui_utils.py:69-70 | no tile shown was called away |
| UiUtils.RiverSkipsCalled | ui_utils.py:69-70 | a called token is never printed and every token not called is |
| UiUtils.PrintGameStatus | ui_utils.py:149-153 | the header starts with the wind's kanji and the round number `game_count % 4 + 1` |
| UiUtils.GameStatusReadBack | ui_utils.py:149-153 | the header's layout, with honba and the pot `1000·riichibo` in decimal that read back as those numbers |
| UiUtils.StatusLayout | ui_utils.py:151-152 | the header is its pieces in order |
| UiUtils.CallingTexts | ui_utils.py:43 | `str` of every meld, failing exactly when one fails |
| UiUtils.RowsJoin | ui_utils.py:44-46 | with more than two melds, the joined text is the first two joined by `|`, then `|` and a line break and `  |`, then the rest joined by `|` |
| UiUtils.JiDecodeSeparators | ui_utils.py:47-49 | JI_DECODE's keys are non-empty and hold no `|`, line break or space |
| UiUtils.ShapeSeparators | ui_utils.py:47-49 | a key of JI_DECODE's shape holds no separator |
| UiUtils.CallingsText | ui_utils.py:40-51 | no melds give `""`; otherwise the text fails exactly when a meld's text fails, and starts with `[` and ends with `]` |
| UiUtils.PrintCallings | ui_utils.py:40-51 | the method gives exactly `CallingsText` |
| UiUtils.ReplaceEach | ui_utils.py:47-49 | the guarded replace loop gives `ReplaceAll` over the table in its order |
| UiUtils.ReplaceAllEmpty | ui_utils.py:47-49 | the substitutions leave the empty text empty |
| UiUtils.ReplaceAllAround | ui_utils.py:47-49 | the substitutions never cross a character no key contains |
| UiUtils.Decoded | ui_utils.py:47-49 | every entry decoded on its own |
| UiUtils.DecodedAt | ui_utils.py:47-49 | each decoded entry is the substitutions applied to it |
| UiUtils.DecodeJoin | ui_utils.py:46-49 | decoding the joined text is joining the decoded entries |
| UiUtils.DecodeRowBreak | ui_utils.py:45-49 | decoding leaves the break before the third entry alone |
| UiUtils.ReplaceAllCons | ui_utils.py:47-49 | a first character no key contains is kept as it is |
| UiUtils.DecodeRows | ui_utils.py:44-49 | decoding commutes with moving the third entry onto a new line |
| UiUtils.CallingsLayout | ui_utils.py:40-51 | the output is `[`, the decoded meld texts in order joined by `|` with the third on a new line, then `]` |

## Left out

- The engine's snapshots and the match's bookkeeping are assumed well
  formed. The raises that would follow from bad data are excluded by
  preconditions, not modelled as errors:
  - `get_turn_from_river_tile` on the last token of a river
    (gamecore.py:196) is required to succeed: `RiversParse` on
    `GameCore.MahjongGameCore.UpdatePlayerInfos` and
    `GameCore.MahjongGameCore.Step`.
  - `Calls.split()[-1]` raises an `IndexError` on an empty Calls string
    (gamecore.py:235, 248). A seat that calls or declares a quad is
    required to have a Calls token: `MatchRules.MeldShown`, and the
    `calls` requires of `UpdatePlayerFuuro`, `RenderAnkan`,
    `RenderKakan` and `Step`.
  - `fuuro` is unbound when Calls is empty (gamecore.py:259-265). The
    same `calls` requires excludes this on
    `GameCore.MahjongGameCore.RenderKakan`.
  - `self.player_infos[curr_player_id]` at gamecore.py:300 raises while
    no snapshot is stored yet. For a KAKAN, `GameCore.MahjongGameCore.Step`
    requires the four stored snapshots (`|playerInfos| == 4`).
  - `payoffs[self.loser]` (gamecore.py:376) must be a valid numpy index.
    `MatchRules.Settle` and `GameCore.MahjongGameCore.Adjust` require
    `-4 <= loser < 4` after a discard win. `CalcScores` has it from the
    class invariant `Valid()`, which keeps `-1 <= loser < 4`.

- Qt (`qt_ui.py`), the agents (`agent.py`) and the engine are not part of
  this model. The engine's reports are method parameters: snapshots,
  `is_over`, raw payoffs, the dealer's waits.
- `get_player_info` and its YAML parsing (gamecore.py:165-176) are not
  modelled. A snapshot is a given record, with an empty river where the
  engine reports none.
- The action chosen in `step` (gamecore.py:274-287) comes from an agent, a
  random choice or the caller, so it is a parameter.
- The `specified_tile` conversion in `step` (gamecore.py:302-304) is left
  out. Its result is never used.
- `np.random` seeding and the random first dealer (gamecore.py:30, 75) are
  left out. The first dealer is a constructor parameter.
- The floating-point part of `calc_final_scores` (gamecore.py:395-414) is
  left out: float32 scaling, the `1e-4` nudge, the bonuses, `np.round`,
  and the returned display scores. What is kept is the integer zero-sum fix,
  dropping the sticks, the return to absolute points, and the seat order the
  nudged sort produces. That order is stated exactly: the scores in
  thousands differ by at least 0.001, more than the nudge, so the sort is by
  score and then by priority.
- The `print` at gamecore.py:386 is left out.
- The int32 arithmetic of the payoffs and cumulative scores is not modelled.
  Integers are unbounded, so an overflow beyond 2^31 is not captured.
- `loser` is never set by the source before the first discard win. The
  model starts it at -1.
- Python's `str.isdigit` accepts non-ASCII digits. `Utils.TurnOf`,
  `Text.IsDigits` and `Utils.NotationToIdx` accept ASCII digits only, so a turn
  number or tile name written with a non-ASCII decimal digit ("٣m", which
  Python reads as index 2) gives None here.
- `CallingInfo.calling_type` is changed in place at gamecore.py:265. The
  model replaces the meld value within the seat's list, so it does not
  capture aliasing: no other reference to that `CallingInfo` exists in the
  core.
- GameCore.MahjongGameCore.Step: when the ledger resolves, or the action is
  a quad, Step's own contract states only the ledger. It does not state the
  melds. Those are stated by its parts: UpdatePlayerInfos, RenderAnkan,
  RenderKakan and Aftercare.
- `print_river` appends a tile's name, mark and line break in separate
  steps (ui_utils.py:75-84). UiUtils.PrintRiver appends them as one piece.
  The text it produces is the same.
- `print_detailed_winner_info`, `print_dora_list`, `print_player`,
  `print_curr_scores`, `get_dora_info_str`, `get_player_info_str` and
  `is_discarding` are not modelled. They render foreign engine objects, or
  are deprecated.
- `is_terminated` only returns the `terminated` field. It is read directly.
