/**
 * The text renderers of ui_utils.py: a hand, a river, the melds of a
 * player and the round header.
 */
module UiUtils {
  import opened Wrappers
  import opened Text
  import Dicts
  import opened Utils

  /** RIVER_WIDTH: printed tiles per river row */
  const RiverWidth: int := 12

  // -------------------------------------------------------------- print_hand

  /** `n` tile backs */
  function Backs(n: nat): (r: string)
    ensures |r| == n
    ensures forall i :: 0 <= i < n ==> r[i] == TileBack
  {
    if n == 0 then "" else Backs(n - 1) + [TileBack]
  }

  /** the tiles as `"".join` shows them: each one decoded, or a tile back when masked */
  function ShowTiles(tiles: seq<string>, mask: bool): (r: string)
    ensures mask ==> r == Backs(|tiles|)
  {
    if tiles == [] then ""
    else ShowTiles(tiles[..|tiles| - 1], mask) + (if mask then [TileBack] else TileExp(tiles[|tiles| - 1]))
  }

  /** print_hand: a hand of 3k+2 tiles has its last (drawn) tile set apart by
      three spaces, unless that tile decodes to the empty string */
  function PrintHand(tiles: seq<string>, mask: bool): (r: string)
    ensures mask ==> forall i :: 0 <= i < |r| ==> r[i] == TileBack || r[i] == ' '
  {
    var n := |tiles|;
    if n % 3 == 2 then
      var front := ShowTiles(tiles[..n - 1], mask);
      var last := TileExp(tiles[n - 1]);
      if last != "" then front + "   " + (if mask then [TileBack] else last) else front
    else ShowTiles(tiles, mask)
  }

  /** a masked hand shows one tile back per tile and nothing about the tiles themselves */
  lemma MaskedHand(tiles: seq<string>)
    ensures |tiles| % 3 == 2 && TileExp(tiles[|tiles| - 1]) != "" ==>
      PrintHand(tiles, true) == Backs(|tiles| - 1) + "   " + [TileBack]
    ensures |tiles| % 3 == 2 && TileExp(tiles[|tiles| - 1]) == "" ==>
      PrintHand(tiles, true) == Backs(|tiles| - 1)
    ensures |tiles| % 3 != 2 ==> PrintHand(tiles, true) == Backs(|tiles|)
  {
  }

  predicate TileIndices(idx: seq<int>)
  {
    forall k :: 0 <= k < |idx| ==> 0 <= idx[k] < 34
  }

  /** the names in TILE_LIST of the tiles with these indices */
  function TilesOf(idx: seq<int>): (ts: seq<string>)
    requires TileIndices(idx)
    ensures |ts| == |idx|
    ensures forall k :: 0 <= k < |idx| ==> ts[k] == TileList[idx[k]]
  {
    if idx == [] then [] else TilesOf(idx[..|idx| - 1]) + [TileList[idx[|idx| - 1]]]
  }

  /** the glyphs of the tiles with these indices */
  function GlyphsOf(idx: seq<int>): (g: string)
    requires TileIndices(idx)
    ensures |g| == |idx|
    ensures forall k :: 0 <= k < |idx| ==> g[k] == TileGlyph(idx[k])
  {
    if idx == [] then "" else GlyphsOf(idx[..|idx| - 1]) + [TileGlyph(idx[|idx| - 1])]
  }

  lemma {:induction false} ShowGlyphs(idx: seq<int>)
    requires TileIndices(idx)
    ensures ShowTiles(TilesOf(idx), false) == GlyphsOf(idx)
  {
    if idx != [] {
      var n := |idx|;
      var ts := TilesOf(idx);
      assert ts[..n - 1] == TilesOf(idx[..n - 1]);
      ShowGlyphs(idx[..n - 1]);
      TileListGlyph(idx[n - 1]);
    }
  }

  /** an open hand of real tiles shows each tile as its glyph, in order, the
      drawn tile of a 3k+2 hand three spaces apart */
  lemma OpenHand(idx: seq<int>)
    requires TileIndices(idx)
    ensures |idx| % 3 == 2 ==>
      PrintHand(TilesOf(idx), false) == GlyphsOf(idx[..|idx| - 1]) + "   " + [TileGlyph(idx[|idx| - 1])]
    ensures |idx| % 3 != 2 ==> PrintHand(TilesOf(idx), false) == GlyphsOf(idx)
  {
    var n := |idx|;
    if n % 3 == 2 {
      var ts := TilesOf(idx);
      assert ts[..n - 1] == TilesOf(idx[..n - 1]);
      ShowGlyphs(idx[..n - 1]);
      TileListGlyph(idx[n - 1]);
    } else {
      ShowGlyphs(idx);
    }
  }

  // ------------------------------------------------------------- print_river

  /** the river tokens still on the table: those not called away ('-') */
  function OnTable(river: seq<string>): (r: seq<string>)
    ensures |r| <= |river|
  {
    if river == [] then []
    else
      var n := |river|;
      OnTable(river[..n - 1]) + (if '-' in TileExtra(river[n - 1]) then [] else [river[n - 1]])
  }

  lemma {:induction false} OnTableConcat(a: seq<string>, b: seq<string>)
    ensures OnTable(a + b) == OnTable(a) + OnTable(b)
    decreases |b|
  {
    if b == [] {
      assert a + b == a;
    } else {
      var n := |b|;
      DropLast(a, b);
      OnTableConcat(a, b[..n - 1]);
    }
  }

  /** more of the river never shows fewer tiles */
  lemma OnTableGrows(river: seq<string>, j: int, k: int)
    requires 0 <= j <= k <= |river|
    ensures |OnTable(river[..j])| <= |OnTable(river[..k])|
  {
    assert river[..k] == river[..j] + river[j..k];
    OnTableConcat(river[..j], river[j..k]);
  }

  /** the first token tagged 'r' (riichi declared with it), |river| if none */
  function FirstRiichi(river: seq<string>): (f: nat)
    ensures f <= |river|
    ensures forall j :: 0 <= j < f ==> 'r' !in TileExtra(river[j])
    ensures f < |river| ==> 'r' in TileExtra(river[f])
  {
    FirstRiichiFrom(river, 0)
  }

  /** the first token at or after n tagged 'r', |river| if none */
  function FirstRiichiFrom(river: seq<string>, n: nat): (f: nat)
    requires n <= |river|
    ensures n <= f <= |river|
    ensures forall j :: n <= j < f ==> 'r' !in TileExtra(river[j])
    ensures f < |river| ==> 'r' in TileExtra(river[f])
    decreases |river| - n
  {
    if n == |river| then n
    else if 'r' in TileExtra(river[n]) then n
    else FirstRiichiFrom(river, n + 1)
  }

  /** the position, among the tiles on the table, of the tile print_river wraps in <...> */
  function WrapIndex(river: seq<string>): nat
  {
    |OnTable(river[..FirstRiichi(river)])|
  }

  /** the mark after a tile: '%' after the tile of the latest turn when it
      came from the hand ('h'), '@%' when it did not; '@' after an older tile
      that did not come from the hand, when enable_discard_from is set */
  function Mark(extra: string, turn: Option<nat>, maxTurn: int, enableDiscardFrom: bool): string
  {
    if turn.Some? && turn.value == maxTurn then (if 'h' in extra then "%" else "@%")
    else if enableDiscardFrom && 'h' !in extra then "@"
    else ""
  }

  /** a tile's glyphs, wrapped in <...> or not, its mark and its line break */
  function Decorated(name: string, mark: string, wrapped: bool, lineEnd: bool): string
  {
    (if wrapped then "<" + name + ">" else name) + mark + (if lineEnd then "\n" else "")
  }

  /** what print_river emits for the k-th tile on the table */
  function Piece(tile: string, k: int, wrap: int, maxTurn: int, enableDiscardFrom: bool): string
  {
    Decorated(TileExp(Prefix2(tile)), Mark(TileExtra(tile), TurnOf(tile), maxTurn, enableDiscardFrom),
              k == wrap, (k + 1) % RiverWidth == 0)
  }

  /** exactly the tile of the latest turn is marked '%' or '@%', and '%'
      exactly when it came from the hand */
  lemma MarkLatest(extra: string, turn: Option<nat>, maxTurn: int, enableDiscardFrom: bool)
    ensures var m := Mark(extra, turn, maxTurn, enableDiscardFrom);
      (m == "%" || m == "@%") <==> turn == Some(maxTurn)
    ensures Mark(extra, turn, maxTurn, enableDiscardFrom) == "%" <==> turn == Some(maxTurn) && 'h' in extra
  {
  }

  /** the piece of the k-th shown tile ends in a line break exactly when
      k + 1 is a multiple of twelve; river tokens hold no line break */
  lemma PieceLineEnd(tile: string, k: int, wrap: int, maxTurn: int, enableDiscardFrom: bool)
    requires '\n' !in tile
    ensures var p := Piece(tile, k, wrap, maxTurn, enableDiscardFrom);
      (|p| > 0 && p[|p| - 1] == '\n') <==> (k + 1) % RiverWidth == 0
  {
    var name := TileExp(Prefix2(tile));
    var mark := Mark(TileExtra(tile), TurnOf(tile), maxTurn, enableDiscardFrom);
    assert forall c :: c in Prefix2(tile) ==> c in tile;
    TileExpNoBreak(Prefix2(tile));
    if (k + 1) % RiverWidth != 0 {
      var p := Piece(tile, k, wrap, maxTurn, enableDiscardFrom);
      var head := if k == wrap then "<" + name + ">" else name;
      assert '\n' !in head;
      assert '\n' !in mark;
      assert p == head + mark;
      assert '\n' !in p;
      if |p| > 0 {
        assert p[|p| - 1] in p;
      }
    }
  }

  function Pieces(shown: seq<string>, wrap: int, maxTurn: int, enableDiscardFrom: bool): string
  {
    if shown == [] then ""
    else
      var n := |shown|;
      Pieces(shown[..n - 1], wrap, maxTurn, enableDiscardFrom)
      + Piece(shown[n - 1], n - 1, wrap, maxTurn, enableDiscardFrom)
  }

  /** every tile on the table carries a turn number */
  predicate AllTurns(shown: seq<string>)
  {
    shown == [] || (AllTurns(shown[..|shown| - 1]) && TurnOf(shown[|shown| - 1]).Some?)
  }

  /** a prefix of tiles that all carry turn numbers carries them too */
  lemma {:induction false} AllTurnsPrefix(a: seq<string>, b: seq<string>)
    requires AllTurns(a + b)
    ensures AllTurns(a)
    decreases |b|
  {
    if b == [] {
      assert a + b == a;
    } else {
      DropLast(a, b);
      AllTurnsPrefix(a, b[..|b| - 1]);
    }
  }

  /** print_river: the tiles on the table in order, the first one at or after
      the riichi tile wrapped, the tile of the latest turn marked, a line
      break after every twelfth; None where a turn number does not parse */
  function RiverText(river: seq<string>, maxTurn: int, enableDiscardFrom: bool): Option<string>
  {
    var shown := OnTable(river);
    if AllTurns(shown) then Some(Pieces(shown, WrapIndex(river), maxTurn, enableDiscardFrom) + "\n")
    else None
  }

  /** the tile at i is on the table: it extends the tiles shown so far by one */
  lemma RiverShows(river: seq<string>, i: int)
    requires 0 <= i < |river| && '-' !in TileExtra(river[i])
    ensures OnTable(river[..i + 1]) == OnTable(river[..i]) + [river[i]]
  {
    assert river[..i + 1][..i] == river[..i];
  }

  /** the tile at i is called away: the tiles shown so far stay as they are */
  lemma RiverSkips(river: seq<string>, i: int)
    requires 0 <= i < |river| && '-' in TileExtra(river[i])
    ensures OnTable(river[..i + 1]) == OnTable(river[..i])
  {
    assert river[..i + 1][..i] == river[..i];
  }

  /** the riichi flag of print_river: once the scan is past the first 'r' it stays set */
  lemma RiichiSeen(river: seq<string>, i: int)
    requires 0 <= i < |river|
    ensures (FirstRiichi(river) < i || 'r' in TileExtra(river[i])) == (FirstRiichi(river) < i + 1)
  {
  }

  /** the tile shown at i is the wrapped one exactly when the riichi tile has
      been passed and no tile has been wrapped yet */
  lemma WrapsHere(river: seq<string>, i: int)
    requires 0 <= i < |river| && '-' !in TileExtra(river[i])
    ensures (FirstRiichi(river) <= i && WrapIndex(river) >= |OnTable(river[..i])|)
      == (WrapIndex(river) == |OnTable(river[..i])|)
  {
    var f := FirstRiichi(river);
    if f <= i {
      OnTableGrows(river, f, i);
    } else {
      OnTableGrows(river, i + 1, f);
      RiverShows(river, i);
    }
  }

  /** a tile shown at i whose turn does not parse makes the whole river fail */
  lemma RiverFails(river: seq<string>, i: int)
    requires 0 <= i < |river| && '-' !in TileExtra(river[i]) && TurnOf(river[i]).None?
    ensures !AllTurns(OnTable(river))
  {
    var head, tail := river[..i + 1], river[i + 1..];
    RiverShows(river, i);
    Halves(river, i + 1);
    OnTableConcat(head, tail);
    if AllTurns(OnTable(river)) {
      AllTurnsPrefix(OnTable(head), OnTable(tail));
      AllTurnsLast(OnTable(river[..i]), river[i]);
    }
  }

  lemma DropLast<T>(a: seq<T>, b: seq<T>)
    requires |b| > 0
    ensures (a + b)[..|a + b| - 1] == a + b[..|b| - 1]
    ensures (a + b)[|a + b| - 1] == b[|b| - 1]
  {
  }

  lemma Halves<T>(s: seq<T>, k: int)
    requires 0 <= k <= |s|
    ensures s == s[..k] + s[k..]
  {
  }

  lemma AllTurnsLast(shown: seq<string>, tile: string)
    requires AllTurns(shown + [tile])
    ensures TurnOf(tile).Some?
  {
  }

  lemma AllTurnsStep(shown: seq<string>, tile: string)
    requires AllTurns(shown) && TurnOf(tile).Some?
    ensures AllTurns(shown + [tile])
  {
    assert (shown + [tile])[..|shown|] == shown;
  }

  lemma PiecesStep(shown: seq<string>, tile: string, wrap: int, maxTurn: int, enableDiscardFrom: bool)
    ensures Pieces(shown + [tile], wrap, maxTurn, enableDiscardFrom)
      == Pieces(shown, wrap, maxTurn, enableDiscardFrom) + Piece(tile, |shown|, wrap, maxTurn, enableDiscardFrom)
  {
    assert (shown + [tile])[..|shown|] == shown;
  }

  /** the state of print_river's scan after the first i tokens */
  ghost predicate RiverScanned(river: seq<string>, i: int, maxTurn: int, enableDiscardFrom: bool,
                               printCount: int, encounterR: bool, printedR: bool, ret: string)
  {
    0 <= i <= |river| &&
    AllTurns(OnTable(river[..i])) &&
    printCount == |OnTable(river[..i])| + 1 &&
    encounterR == (FirstRiichi(river) < i) &&
    printedR == (WrapIndex(river) < |OnTable(river[..i])|) &&
    ret == Pieces(OnTable(river[..i]), WrapIndex(river), maxTurn, enableDiscardFrom)
  }

  /** nothing scanned yet: nothing printed, no riichi seen */
  lemma ScanStart(river: seq<string>, maxTurn: int, enableDiscardFrom: bool)
    ensures RiverScanned(river, 0, maxTurn, enableDiscardFrom, 1, false, false, "")
  {
    assert river[..0] == [];
  }

  /** scanning a called token updates only the riichi flag */
  lemma SkipStep(river: seq<string>, i: int, maxTurn: int, enableDiscardFrom: bool,
                 printCount: int, encounterR: bool, printedR: bool, ret: string)
    requires RiverScanned(river, i, maxTurn, enableDiscardFrom, printCount, encounterR, printedR, ret)
    requires i < |river| && '-' in TileExtra(river[i])
    ensures RiverScanned(river, i + 1, maxTurn, enableDiscardFrom, printCount,
                         encounterR || 'r' in TileExtra(river[i]), printedR, ret)
  {
    RiichiSeen(river, i);
    RiverSkips(river, i);
  }

  /** the text one pass of print_river's loop appends for a token on the table
      is that tile's piece */
  lemma PieceHere(river: seq<string>, i: int, maxTurn: int, enableDiscardFrom: bool,
                  printCount: int, encounterR: bool, printedR: bool, piece: string)
    requires 0 <= i < |river| && '-' !in TileExtra(river[i])
    requires printCount == |OnTable(river[..i])| + 1
    requires encounterR == (FirstRiichi(river) < i)
    requires printedR == (WrapIndex(river) < |OnTable(river[..i])|)
    requires piece == Decorated(TileExp(Prefix2(river[i])), Mark(TileExtra(river[i]), TurnOf(river[i]), maxTurn, enableDiscardFrom),
                                (encounterR || 'r' in TileExtra(river[i])) && !printedR, printCount % RiverWidth == 0)
    ensures piece == Piece(river[i], |OnTable(river[..i])|, WrapIndex(river), maxTurn, enableDiscardFrom)
  {
    WrapCondition(river, i, encounterR, printedR);
  }

  /** print_river's test for wrapping picks out the tile at WrapIndex */
  lemma WrapCondition(river: seq<string>, i: int, encounterR: bool, printedR: bool)
    requires 0 <= i < |river| && '-' !in TileExtra(river[i])
    requires encounterR == (FirstRiichi(river) < i)
    requires printedR == (WrapIndex(river) < |OnTable(river[..i])|)
    ensures ((encounterR || 'r' in TileExtra(river[i])) && !printedR) == (|OnTable(river[..i])| == WrapIndex(river))
  {
    RiichiSeen(river, i);
    WrapsHere(river, i);
  }

  /** scanning a token on the table appends its piece */
  lemma ShowStep(river: seq<string>, i: int, maxTurn: int, enableDiscardFrom: bool,
                 printCount: int, encounterR: bool, printedR: bool, ret: string, piece: string)
    requires RiverScanned(river, i, maxTurn, enableDiscardFrom, printCount, encounterR, printedR, ret)
    requires i < |river| && '-' !in TileExtra(river[i]) && TurnOf(river[i]).Some?
    requires piece == Piece(river[i], |OnTable(river[..i])|, WrapIndex(river), maxTurn, enableDiscardFrom)
    ensures RiverScanned(river, i + 1, maxTurn, enableDiscardFrom, printCount + 1,
                         encounterR || 'r' in TileExtra(river[i]), printedR || encounterR || 'r' in TileExtra(river[i]),
                         ret + piece)
  {
    var tile := river[i];
    var before := OnTable(river[..i]);
    RiichiSeen(river, i);
    RiverShows(river, i);
    WrapsHere(river, i);
    AllTurnsStep(before, tile);
    PiecesStep(before, tile, WrapIndex(river), maxTurn, enableDiscardFrom);
  }

  /** print_river's state between tokens: the count of tiles printed so far
      plus one, whether the riichi tile has been met, whether a tile has been
      wrapped in <...>, and the text so far */
  datatype Scan = Scan(printCount: int, encounterR: bool, printedR: bool, ret: string)

  /** one pass of print_river's loop over a token; None where its turn does not parse */
  function ScanTile(s: Scan, tile: string, maxTurn: int, enableDiscardFrom: bool): Option<Scan>
  {
    var extra := TileExtra(tile);
    var encounter := s.encounterR || 'r' in extra;
    if '-' in extra then Some(s.(encounterR := encounter))
    else if TurnOf(tile).None? then None
    else
      var wrap := encounter && !s.printedR;
      var piece := Decorated(TileExp(Prefix2(tile)), Mark(extra, TurnOf(tile), maxTurn, enableDiscardFrom),
                             wrap, s.printCount % RiverWidth == 0);
      Some(Scan(s.printCount + 1, encounter, s.printedR || wrap, s.ret + piece))
  }

  /** print_river's loop over the first n tokens */
  function ScanRiver(river: seq<string>, n: nat, maxTurn: int, enableDiscardFrom: bool): Option<Scan>
    requires n <= |river|
  {
    if n == 0 then Some(Scan(1, false, false, ""))
    else
      var s := ScanRiver(river, n - 1, maxTurn, enableDiscardFrom);
      if s.None? then None else ScanTile(s.value, river[n - 1], maxTurn, enableDiscardFrom)
  }

  /** after n tokens the loop has printed the tiles on the table among them,
      and it fails exactly when one of those carries no turn number */
  lemma {:induction false} ScanMeaning(river: seq<string>, n: nat, maxTurn: int, enableDiscardFrom: bool)
    requires n <= |river|
    ensures ScanRiver(river, n, maxTurn, enableDiscardFrom).Some? <==> AllTurns(OnTable(river[..n]))
    ensures ScanRiver(river, n, maxTurn, enableDiscardFrom).Some? ==>
      var s := ScanRiver(river, n, maxTurn, enableDiscardFrom).value;
      RiverScanned(river, n, maxTurn, enableDiscardFrom, s.printCount, s.encounterR, s.printedR, s.ret)
  {
    if n == 0 {
      ScanStart(river, maxTurn, enableDiscardFrom);
    } else {
      var i := n - 1;
      ScanMeaning(river, i, maxTurn, enableDiscardFrom);
      var prev := ScanRiver(river, i, maxTurn, enableDiscardFrom);
      var tile := river[i];
      if prev.None? {
        if '-' in TileExtra(tile) {
          RiverSkips(river, i);
        } else {
          RiverShows(river, i);
          if AllTurns(OnTable(river[..n])) {
            AllTurnsPrefix(OnTable(river[..i]), [tile]);
          }
        }
      } else {
        var s := prev.value;
        if '-' in TileExtra(tile) {
          SkipStep(river, i, maxTurn, enableDiscardFrom, s.printCount, s.encounterR, s.printedR, s.ret);
        } else if TurnOf(tile).None? {
          RiverShows(river, i);
          if AllTurns(OnTable(river[..n])) {
            AllTurnsLast(OnTable(river[..i]), tile);
          }
        } else {
          var piece := Decorated(TileExp(Prefix2(tile)), Mark(TileExtra(tile), TurnOf(tile), maxTurn, enableDiscardFrom),
                                 (s.encounterR || 'r' in TileExtra(tile)) && !s.printedR, s.printCount % RiverWidth == 0);
          PieceHere(river, i, maxTurn, enableDiscardFrom, s.printCount, s.encounterR, s.printedR, piece);
          ShowStep(river, i, maxTurn, enableDiscardFrom, s.printCount, s.encounterR, s.printedR, s.ret, piece);
        }
      }
    }
  }

  /** the loop run over the whole river gives print_river's text, less its final line break */
  lemma ScanText(river: seq<string>, maxTurn: int, enableDiscardFrom: bool)
    ensures var s := ScanRiver(river, |river|, maxTurn, enableDiscardFrom);
      RiverText(river, maxTurn, enableDiscardFrom) == if s.Some? then Some(s.value.ret + "\n") else None
  {
    ScanMeaning(river, |river|, maxTurn, enableDiscardFrom);
    assert river[..|river|] == river;
  }

  /** a token on the table whose turn does not parse leaves print_river no text */
  lemma NoText(river: seq<string>, i: int, maxTurn: int, enableDiscardFrom: bool)
    requires 0 <= i < |river| && '-' !in TileExtra(river[i]) && TurnOf(river[i]).None?
    ensures RiverText(river, maxTurn, enableDiscardFrom) == None
  {
    RiverFails(river, i);
  }

  method PrintRiver(river: seq<string>, maxTurn: int, enableDiscardFrom: bool) returns (r: Option<string>)
    ensures r == RiverText(river, maxTurn, enableDiscardFrom)
  {
    var printCount := 1;
    var ret := "";
    var encounterR, printedR := false, false;
    for i := 0 to |river|
      invariant ScanRiver(river, i, maxTurn, enableDiscardFrom) == Some(Scan(printCount, encounterR, printedR, ret))
    {
      var tile := river[i];
      var extra := TileExtra(tile);
      ghost var before := Scan(printCount, encounterR, printedR, ret);
      assert ScanRiver(river, i + 1, maxTurn, enableDiscardFrom) == ScanTile(before, tile, maxTurn, enableDiscardFrom);
      if !encounterR {
        encounterR := 'r' in extra;
      }
      if '-' in extra {
        continue;
      }
      var turn := TurnOf(tile);
      if turn.None? {
        NoText(river, i, maxTurn, enableDiscardFrom);
        return None;
      }
      var name := TileExp(Prefix2(tile));
      var head := "";
      if encounterR && !printedR {
        head := "<" + name + ">";
        printedR := true;
      } else {
        head := name;
      }
      var mark := "";
      if turn.value == maxTurn {
        mark := if 'h' in extra then "%" else "@%";
      } else if enableDiscardFrom && 'h' !in extra {
        mark := "@";
      }
      assert mark == Mark(extra, turn, maxTurn, enableDiscardFrom);
      ret := ret + (head + mark + if printCount % RiverWidth == 0 then "\n" else "");
      printCount := printCount + 1;
    }
    ScanText(river, maxTurn, enableDiscardFrom);
    r := Some(ret + "\n");
  }


  /** the first token not called away, |s| if there is none */
  function FirstOnTable(s: seq<string>): (j: nat)
    ensures j <= |s|
    ensures forall k :: 0 <= k < j ==> '-' in TileExtra(s[k])
    ensures j < |s| ==> '-' !in TileExtra(s[j])
  {
    FirstOnTableFrom(s, 0)
  }

  /** the first token at or after n not called away, |s| if there is none */
  function FirstOnTableFrom(s: seq<string>, n: nat): (j: nat)
    requires n <= |s|
    ensures n <= j <= |s|
    ensures forall k :: n <= k < j ==> '-' in TileExtra(s[k])
    ensures j < |s| ==> '-' !in TileExtra(s[j])
    decreases |s| - n
  {
    if n == |s| then n
    else if '-' !in TileExtra(s[n]) then n
    else FirstOnTableFrom(s, n + 1)
  }

  lemma {:induction false} AllCalled(s: seq<string>)
    requires forall k :: 0 <= k < |s| ==> '-' in TileExtra(s[k])
    ensures OnTable(s) == []
  {
    if s != [] {
      AllCalled(s[..|s| - 1]);
    }
  }

  lemma SplitAt<T>(s: seq<T>, j: int)
    requires 0 <= j < |s|
    ensures s == s[..j] + ([s[j]] + s[j + 1..])
    ensures s[j..] == [s[j]] + s[j + 1..]
  {
  }

  /** a single token shows itself unless it was called */
  lemma OnTableOne(t: string)
    ensures OnTable([t]) == if '-' in TileExtra(t) then [] else [t]
  {
    assert [t][..0] == [];
  }

  /** the tiles on the table start at the first token that was not called */
  lemma OnTableStart(s: seq<string>)
    ensures FirstOnTable(s) < |s| ==> OnTable(s) == [s[FirstOnTable(s)]] + OnTable(s[FirstOnTable(s) + 1..])
    ensures FirstOnTable(s) == |s| ==> OnTable(s) == []
  {
    var j := FirstOnTable(s);
    var front, rest := s[..j], s[j..];
    Halves(s, j);
    AllCalled(front);
    OnTableConcat(front, rest);
    if j < |s| {
      SplitAt(s, j);
      OnTableConcat([s[j]], s[j + 1..]);
      OnTableOne(s[j]);
    } else {
      assert rest == [];
    }
  }

  /** print_river wraps a tile exactly when some token at or after the first
      riichi-tagged one is still on the table, and the wrapped tile is the
      first such token (the riichi token itself may have been called) */
  lemma WrappedTile(river: seq<string>)
    ensures var f := FirstRiichi(river);
      (WrapIndex(river) < |OnTable(river)| <==> f + FirstOnTable(river[f..]) < |river|)
    ensures var f := FirstRiichi(river);
      WrapIndex(river) < |OnTable(river)| ==> OnTable(river)[WrapIndex(river)] == river[f + FirstOnTable(river[f..])]
  {
    var f := FirstRiichi(river);
    var tail := river[f..];
    assert river == river[..f] + tail;
    OnTableConcat(river[..f], tail);
    OnTableStart(tail);
    if FirstOnTable(tail) < |tail| {
      assert river[f + FirstOnTable(tail)] == tail[FirstOnTable(tail)];
    }
  }

  /** every tile on the table is one that was not called away */
  lemma {:induction false} ShownUncalled(river: seq<string>)
    ensures forall t :: t in OnTable(river) ==> '-' !in TileExtra(t)
  {
    if river != [] {
      ShownUncalled(river[..|river| - 1]);
    }
  }

  /** no tile that was called away is printed, and every tile that was not
      is on the table */
  lemma {:induction false} RiverSkipsCalled(river: seq<string>, j: int)
    requires 0 <= j < |river|
    ensures '-' in TileExtra(river[j]) ==> river[j] !in OnTable(river)
    ensures '-' !in TileExtra(river[j]) ==> river[j] in OnTable(river)
  {
    ShownUncalled(river);
    var n := |river|;
    if j < n - 1 {
      assert river[..n - 1][j] == river[j];
      RiverSkipsCalled(river[..n - 1], j);
    }
  }

  // ----------------------------------------------------------- print_game_status

  /** print_game_status: wind, round number within the wind, honba, and the riichi pot in points */
  function PrintGameStatus(wind: Wind, gameCount: int, honba: int, riichibo: int): (r: string)
    ensures |r| > 2 && r[0] == WindKanji(wind)
    ensures r[1] == DigitChar(gameCount % 4 + 1) && r[2] == '局'
  {
    [WindKanji(wind)] + IntToString(gameCount % 4 + 1) + "局 " + IntToString(honba) + "本場"
    + "\n場供: " + IntToString(1000 * riichibo)
  }

  /** the honba count and the pot can be read back from the header */
  lemma GameStatusReadBack(wind: Wind, gameCount: int, honba: nat, riichibo: nat)
    ensures var h, p := NatToString(honba), NatToString(1000 * riichibo);
      IsDigits(h) && IsDigits(p) &&
      PrintGameStatus(wind, gameCount, honba, riichibo) ==
        [WindKanji(wind), DigitChar(gameCount % 4 + 1)] + "局 " + h + "本場\n場供: " + p &&
      DigitsValue(h) == honba && DigitsValue(p) == 1000 * riichibo
  {
    NatToStringRoundTrip(honba);
    NatToStringRoundTrip(1000 * riichibo);
    StatusLayout(wind, gameCount, honba, riichibo);
  }

  lemma StatusLayout(wind: Wind, gameCount: int, honba: nat, riichibo: nat)
    ensures PrintGameStatus(wind, gameCount, honba, riichibo) ==
      [WindKanji(wind), DigitChar(gameCount % 4 + 1)] + "局 " + NatToString(honba) + "本場\n場供: " + NatToString(1000 * riichibo)
  {
    var d := DigitChar(gameCount % 4 + 1);
    assert IntToString(gameCount % 4 + 1) == [d];
    assert [WindKanji(wind)] + [d] == [WindKanji(wind), d];
    var x := [WindKanji(wind), d] + "局 " + NatToString(honba);
    Assoc3(x, "本場", "\n場供: ");
    assert "本場" + "\n場供: " == "本場\n場供: ";
  }

  lemma Assoc3<T>(x: seq<T>, y: seq<T>, z: seq<T>)
    ensures x + y + z == x + (y + z)
  {
  }

  // ----------------------------------------------------------- print_callings

  /** `f` applied to every element, None as soon as one of them gives None */
  function AllSome<A, B>(xs: seq<A>, f: A -> Option<B>): (r: Option<seq<B>>)
    ensures r.Some? <==> forall k :: 0 <= k < |xs| ==> f(xs[k]).Some?
    ensures r.Some? ==> |r.value| == |xs|
    ensures r.Some? ==> forall k :: 0 <= k < |xs| ==> r.value[k] == f(xs[k]).value
  {
    if xs == [] then Some([])
    else
      var n := |xs|;
      match AllSome(xs[..n - 1], f)
      case None => None
      case Some(ys) =>
        match f(xs[n - 1])
        case None => None
        case Some(y) => Some(ys + [y])
  }

  /** str(item) for each meld, None where one of them raises */
  function CallingTexts(infos: seq<CallingInfo>): (r: Option<seq<string>>)
    ensures r.Some? <==> forall k :: 0 <= k < |infos| ==> CallingText(infos[k]).Some?
    ensures r.Some? ==> |r.value| == |infos|
    ensures r.Some? ==> forall k :: 0 <= k < |infos| ==> r.value[k] == CallingText(infos[k]).value
  {
    AllSome(infos, CallingText)
  }

  /** the entries with the third one moved onto a new line */
  function Rows(texts: seq<string>): (r: seq<string>)
    ensures |r| == |texts|
    ensures forall k :: 0 <= k < |texts| && k != 2 ==> r[k] == texts[k]
    ensures |texts| > 2 ==> r[2] == "\n  |" + texts[2]
  {
    if |texts| > 2 then texts[2 := "\n  |" + texts[2]] else texts
  }

  /** joining after a prefix is added to the first entry */
  lemma JoinPrefixed(p: string, xs: seq<string>, sep: string)
    requires |xs| > 0
    ensures Join([p + xs[0]] + xs[1..], sep) == p + Join(xs, sep)
  {
    var ys := [p + xs[0]] + xs[1..];
    if |xs| > 1 {
      assert ys[1..] == xs[1..];
    }
  }

  /** print_callings breaks the line before the third meld, between the
      separator that follows the second and the third meld itself */
  lemma RowsJoin(t: seq<string>)
    requires |t| > 2
    ensures Join(Rows(t), "|") == Join(t[..2], "|") + "|\n  |" + Join(t[2..], "|")
  {
    var r := Rows(t);
    assert r[1..][1..] == r[2..] == ["\n  |" + t[2]] + t[2..][1..];
    JoinPrefixed("\n  |", t[2..], "|");
    assert t[..2][1..] == [t[1]];
  }

  predicate KeysNonEmpty(table: Dicts.Dict<string, string>)
  {
    forall j :: 0 <= j < |table| ==> |table[j].0| > 0
  }

  /** the substitutions of a table in its order, each `replace` applied to
      the result of the ones before */
  function ReplaceAll(t: string, table: Dicts.Dict<string, string>): string
    requires KeysNonEmpty(table)
  {
    if table == [] then t
    else
      var n := |table|;
      Replace(ReplaceAll(t, table[..n - 1]), table[n - 1].0, table[n - 1].1)
  }

  /** JiDecode's keys are non-empty and hold none of the characters print_callings puts between entries */
  lemma JiDecodeSeparators()
    ensures Separable(JiDecode)
  {
    JiDecodeKeyShapes();
    forall j | 0 <= j < |JiDecode|
      ensures |JiDecode[j].0| > 0
      ensures '|' !in JiDecode[j].0 && '\n' !in JiDecode[j].0 && ' ' !in JiDecode[j].0
    {
      ShapeSeparators(JiDecode[j].0);
    }
  }

  /** a key of JiDecode's shape holds no separator */
  lemma ShapeSeparators(k: string)
    requires KeyShape(k)
    ensures |k| > 0 && '|' !in k && '\n' !in k && ' ' !in k
  {
    assert k == [k[0], k[1]];
  }

  /** the glyph text of all of a player's melds */
  function CallingsText(infos: seq<CallingInfo>): (r: Option<string>)
    ensures |infos| == 0 ==> r == Some("")
    ensures |infos| > 0 ==> (r.None? <==> exists k :: 0 <= k < |infos| && CallingText(infos[k]).None?)
    ensures |infos| > 0 && r.Some? ==> |r.value| >= 2 && r.value[0] == '[' && r.value[|r.value| - 1] == ']'
  {
    if |infos| < 1 then Some("")
    else
      match CallingTexts(infos)
      case None => None
      case Some(texts) =>
        JiDecodeSeparators();
        Some("[" + ReplaceAll(Join(Rows(texts), "|"), JiDecode) + "]")
  }

  /** print_callings */
  method PrintCallings(infos: seq<CallingInfo>) returns (r: Option<string>)
    ensures r == CallingsText(infos)
  {
    if |infos| < 1 {
      return Some("");
    }
    var texts := CallingTexts(infos);
    if texts.None? {
      return None;
    }
    var strs := texts.value;
    if |strs| > 2 {
      strs := strs[2 := "\n  |" + strs[2]];
    }
    assert strs == Rows(texts.value);
    var joined := Join(strs, "|");
    JiDecodeSeparators();
    var ret := ReplaceEach(joined, JiDecode);
    r := Some("[" + ret + "]");
  }

  /** the loop of print_callings over a table: each key found in the text is
      replaced by its value, in the table's order */
  method ReplaceEach(t: string, table: Dicts.Dict<string, string>) returns (r: string)
    requires KeysNonEmpty(table)
    ensures r == ReplaceAll(t, table)
  {
    r := t;
    var i := 0;
    while i < |table|
      invariant 0 <= i <= |table|
      invariant r == ReplaceAll(t, table[..i])
    {
      var (z, zExp) := table[i];
      if Contains(r, z) {
        r := Replace(r, z, zExp);
      } else {
        ReplaceAbsent(r, z, zExp);
      }
      assert table[..i + 1][..i] == table[..i];
      i := i + 1;
    }
    assert table[..i] == table;
  }

  lemma {:induction false} ReplaceAllEmpty(table: Dicts.Dict<string, string>)
    requires KeysNonEmpty(table)
    ensures ReplaceAll("", table) == ""
  {
    if table != [] {
      ReplaceAllEmpty(table[..|table| - 1]);
    }
  }

  /** a character no key contains splits the substitutions in two */
  lemma {:induction false} ReplaceAllAround(a: string, c: char, b: string, table: Dicts.Dict<string, string>)
    requires KeysNonEmpty(table)
    requires forall j :: 0 <= j < |table| ==> c !in table[j].0
    ensures ReplaceAll(a + [c] + b, table) == ReplaceAll(a, table) + [c] + ReplaceAll(b, table)
  {
    if table != [] {
      var n := |table|;
      ReplaceAllAround(a, c, b, table[..n - 1]);
      ReplaceAround(ReplaceAll(a, table[..n - 1]), c, ReplaceAll(b, table[..n - 1]), table[n - 1].0, table[n - 1].1);
    }
  }

  /** a table whose keys are non-empty and hold none of the characters
      print_callings puts between entries */
  predicate Separable(table: Dicts.Dict<string, string>)
  {
    KeysNonEmpty(table) &&
    forall j :: 0 <= j < |table| ==> '|' !in table[j].0 && '\n' !in table[j].0 && ' ' !in table[j].0
  }

  /** each entry decoded on its own */
  function Decoded(texts: seq<string>, table: Dicts.Dict<string, string>): (r: seq<string>)
    requires Separable(table)
    ensures |r| == |texts|
  {
    if texts == [] then [] else Decoded(texts[..|texts| - 1], table) + [ReplaceAll(texts[|texts| - 1], table)]
  }

  lemma DecodedAt(texts: seq<string>, table: Dicts.Dict<string, string>, k: int)
    requires Separable(table) && 0 <= k < |texts|
    ensures Decoded(texts, table)[k] == ReplaceAll(texts[k], table)
    decreases |texts|
  {
    if k < |texts| - 1 {
      DecodedAt(texts[..|texts| - 1], table, k);
    }
  }

  /** the glyph substitution never crosses a '|' */
  lemma {:induction false} DecodeJoin(xs: seq<string>, table: Dicts.Dict<string, string>)
    requires Separable(table)
    ensures ReplaceAll(Join(xs, "|"), table) == Join(Decoded(xs, table), "|")
  {
    if xs == [] {
      ReplaceAllEmpty(table);
    } else if |xs| == 1 {
      DecodedAt(xs, table, 0);
    } else {
      var d := Decoded(xs, table);
      assert Join(xs, "|") == xs[0] + ['|'] + Join(xs[1..], "|");
      ReplaceAllAround(xs[0], '|', Join(xs[1..], "|"), table);
      DecodeJoin(xs[1..], table);
      DecodedAt(xs, table, 0);
      forall k | 0 <= k < |xs| - 1
        ensures Decoded(xs[1..], table)[k] == d[k + 1]
      {
        DecodedAt(xs[1..], table, k);
        DecodedAt(xs, table, k + 1);
      }
      assert Decoded(xs[1..], table) == d[1..];
    }
  }

  /** the substitution leaves the line break before the third entry alone */
  lemma DecodeRowBreak(t: string, table: Dicts.Dict<string, string>)
    requires Separable(table)
    ensures ReplaceAll("\n  |" + t, table) == "\n  |" + ReplaceAll(t, table)
  {
    var r := ReplaceAll(t, table);
    ReplaceAllCons('|', t, table);
    ReplaceAllCons(' ', "|" + t, table);
    ReplaceAllCons(' ', " |" + t, table);
    ReplaceAllCons('\n', "  |" + t, table);
    assert "\n  |" + t == ['\n'] + ("  |" + t);
    assert "  |" + t == [' '] + (" |" + t);
    assert " |" + t == [' '] + ("|" + t);
    assert "|" + t == ['|'] + t;
  }

  /** a first character no key contains is kept as it is */
  lemma ReplaceAllCons(c: char, t: string, table: Dicts.Dict<string, string>)
    requires KeysNonEmpty(table)
    requires forall j :: 0 <= j < |table| ==> c !in table[j].0
    ensures ReplaceAll([c] + t, table) == [c] + ReplaceAll(t, table)
  {
    ReplaceAllEmpty(table);
    assert [c] + t == [] + [c] + t;
    ReplaceAllAround([], c, t, table);
  }

  /** decoding commutes with moving the third entry onto a new line */
  lemma DecodeRows(texts: seq<string>, table: Dicts.Dict<string, string>)
    requires Separable(table)
    ensures Decoded(Rows(texts), table) == Rows(Decoded(texts, table))
  {
    var a, b := Decoded(Rows(texts), table), Rows(Decoded(texts, table));
    forall k | 0 <= k < |texts|
      ensures a[k] == b[k]
    {
      DecodedAt(Rows(texts), table, k);
      DecodedAt(texts, table, k);
      if k == 2 {
        DecodeRowBreak(texts[2], table);
      }
    }
  }

  /** print_callings shows its melds in order between '[' and ']', joined by
      '|', each decoded to glyphs on its own, the third on a new line */
  lemma CallingsLayout(infos: seq<CallingInfo>)
    requires |infos| > 0 && CallingsText(infos).Some?
    ensures Separable(JiDecode)
    ensures var texts := CallingTexts(infos).value;
      CallingsText(infos).value == "[" + Join(Rows(Decoded(texts, JiDecode)), "|") + "]"
  {
    JiDecodeSeparators();
    var texts := CallingTexts(infos).value;
    DecodeJoin(Rows(texts), JiDecode);
    DecodeRows(texts, JiDecode);
  }
}
