/**
 * The pure helpers of utils.py: tile notation, the glyph table JI_DECODE,
 * the engine's action numbering and the meld categories, meld rendering
 * with seat arrows, river-token turn parsing and the yaku suffix lookup.
 */
module Utils {
  import opened Wrappers
  import opened Text
  import Dicts

  // ------------------------------------------------------------------ winds

  /** the keys of WIND_TRANSLATION_TABLE */
  datatype Wind = East | South | West | North

  /** WINDS: the prevailing winds in the order the match goes through them */
  const Winds: seq<Wind> := [East, South, West, North]

  /** the values of WIND_TRANSLATION_TABLE */
  function WindKanji(w: Wind): char
  {
    match w
    case East => '東'
    case South => '南'
    case West => '西'
    case North => '北'
  }

  // ---------------------------------------------------------------- actions
  // 0..33 discard the tile with that index; the calls follow in ACTION_SEQ order.

  const ChiLeft: int := 34
  const ChiMid: int := 35
  const ChiRight: int := 36
  const Pon: int := 37
  const AnKan: int := 38
  const MinKan: int := 39
  const KaKan: int := 40
  const Riichi: int := 41
  const Ron: int := 42
  const Tsumo: int := 43
  const NineTerminals: int := 44
  const PassRiichi: int := 45
  const PassResponse: int := 46

  /** is_forward_call: a claim on another player's discard (chi, pon, open quad) */
  predicate IsForwardCall(a: int)
  {
    ChiLeft <= a <= Pon || a == MinKan
  }

  // ---------------------------------------------------------- meld category

  /** CallingCategory */
  datatype Category = Shun | Ko | Ankan | Minkan | Kakan

  /** the enum values of CallingCategory */
  function CategoryValue(c: Category): nat
  {
    match c
    case Shun => 0
    case Ko => 1
    case Ankan => 2
    case Minkan => 3
    case Kakan => 4
  }

  /** CallingCategory(v); None where Python raises ValueError */
  function CategoryOf(v: int): (r: Option<Category>)
    ensures r.Some? <==> 0 <= v < 5
    ensures r.Some? ==> CategoryValue(r.value) == v
  {
    if v == 0 then Some(Shun)
    else if v == 1 then Some(Ko)
    else if v == 2 then Some(Ankan)
    else if v == 3 then Some(Minkan)
    else if v == 4 then Some(Kakan)
    else None
  }

  /** the two ways to_category fails: its assert, and the enum lookup */
  datatype CategoryError = KeyOutOfRange | NoSuchCategory(value: int)

  /** CallingCategory.to_category */
  function ToCategory(key: int): (r: Result<Category, CategoryError>)
    ensures r == Err(KeyOutOfRange) <==> !(0 <= key < 5 || ChiLeft <= key <= PassRiichi)
    ensures 0 <= key < 5 ==> r.Ok? && CategoryValue(r.value) == key
    ensures ChiLeft <= key <= ChiRight ==> r == Ok(Shun)
    ensures key == Pon ==> r == Ok(Ko)
    ensures key == AnKan ==> r == Ok(Ankan)
    ensures key == MinKan ==> r == Ok(Minkan)
    ensures key == KaKan ==> r == Ok(Kakan)
    ensures Riichi <= key <= PassRiichi ==> r.Err? && r.error.NoSuchCategory?
  {
    if !(0 <= key < 5 || ChiLeft <= key <= PassRiichi) then Err(KeyOutOfRange)
    else
      var v := if key < 5 then key else if key > ChiRight then key - ChiRight else 0;
      match CategoryOf(v)
      case Some(c) => Ok(c)
      case None => Err(NoSuchCategory(v))
  }

  /** every forward call has a category, and it is a sequence, a triplet or an open quad */
  lemma ForwardCallCategory(a: int)
    requires IsForwardCall(a)
    ensures ToCategory(a).Ok? && ToCategory(a).value in {Shun, Ko, Minkan}
  {
  }

  // ------------------------------------------------------------------ tiles

  const Suits: string := "mpsz"

  /** "mpsz".index(c), -1 where it raises */
  function SuitIndex(c: char): (i: int)
    ensures -1 <= i < 4
    ensures i >= 0 <==> c in Suits
    ensures i >= 0 ==> Suits[i] == c
  {
    if c == 'm' then 0 else if c == 'p' then 1 else if c == 's' then 2 else if c == 'z' then 3 else -1
  }

  /** TILE_LIST: 1m..9m, 1p..9p, 1s..9s, 1z..7z (the last two generated names, 8z and 9z, dropped) */
  const TileList: seq<string> := TileNames(|Suits| * 9)[..34]

  /** the first `n` names the comprehension behind TILE_LIST generates: digit, then suit */
  function TileNames(n: nat): (names: seq<string>)
    requires n <= 36
    ensures |names| == n
    ensures forall i :: 0 <= i < n ==> names[i] == [DigitChar(i % 9 + 1), Suits[i / 9]]
  {
    if n == 0 then [] else TileNames(n - 1) + [[DigitChar((n - 1) % 9 + 1), Suits[(n - 1) / 9]]]
  }

  /** notation_to_idx; None where its assert fails */
  function NotationToIdx(tile: string): (r: Option<int>)
    ensures r.Some? <==> |tile| == 2 && IsDigit(tile[0]) && tile[1] in Suits
    ensures r.Some? ==> 0 <= r.value < 36
  {
    if |tile| == 2 && IsDigit(tile[0]) && tile[1] in Suits then
      var n := tile[0] as int - '0' as int;
      var number := if n == 0 then 5 else n;
      Some(SuitIndex(tile[1]) * 9 + (number - 1))
    else None
  }

  /** index -> name -> index is the identity on the 34 tiles */
  lemma NotationRoundTrip(i: int)
    requires 0 <= i < 34
    ensures NotationToIdx(TileList[i]) == Some(i)
  {
    var t := TileList[i];
    assert t == [DigitChar(i % 9 + 1), Suits[i / 9]];
    assert SuitIndex(t[1]) == i / 9;
  }

  /** name -> index -> name is the identity on every name of a tile that is not a red five */
  lemma NotationToTile(tile: string)
    requires NotationToIdx(tile).Some? && tile[0] != '0'
    requires NotationToIdx(tile).value < 34
    ensures TileList[NotationToIdx(tile).value] == tile
  {
    var i := NotationToIdx(tile).value;
    var n := tile[0] as int - '0' as int;
    assert i == SuitIndex(tile[1]) * 9 + (n - 1);
    assert i / 9 == SuitIndex(tile[1]) && i % 9 == n - 1;
    assert TileList[i] == [DigitChar(n), Suits[SuitIndex(tile[1])]];
    assert TileList[i] == tile;
  }

  /** a red five (0x) has the index of the plain five (5x) */
  lemma RedFiveNotation(c: char)
    requires c in Suits
    ensures NotationToIdx(['0', c]).Some?
    ensures NotationToIdx(['0', c]) == NotationToIdx(['5', c])
  {
  }

  // ------------------------------------------------------------ glyph table

  /** the glyph of the honour `n`z: the comprehension gives U+1F000 - 1 + n,
      then 5z takes what 7z had and 7z is set to U+1F004 */
  function HonorGlyph(n: int): char
    requires 1 <= n <= 7
  {
    if n == 5 then (0x1F000 - 1 + 7) as char
    else if n == 7 then 0x1F004 as char
    else (0x1F000 - 1 + n) as char
  }

  /** the glyph of `n` in the suit block `block` (0 = m, 1 = s, 2 = p, Unicode's order) */
  function SuitGlyph(block: int, n: int): char
    requires 0 <= block < 3 && 1 <= n <= 9
  {
    (0x1F007 - 1 + block * 9 + n) as char
  }

  /** the suit block of a numbered suit, as the loop over "msp" numbers them */
  function SuitBlock(c: char): int
    requires c in "msp"
  {
    if c == 'm' then 0 else if c == 's' then 1 else 2
  }

  /** TILE_BACK */
  const TileBack: char := 0x1F02B as char

  function Key(d: nat, c: char): string
    requires d < 10
  {
    [DigitChar(d), c]
  }

  /** the entry JI_DECODE inserts at position `j`: 1z..7z, the m, s and p
      blocks, the red fives 0m 0p 0s (the glyph of the five followed by '*'),
      and "**" */
  function Entry(j: int): (string, string)
    requires 0 <= j < 38
  {
    if j < 7 then (Key(j + 1, 'z'), [HonorGlyph(j + 1)])
    else if j < 16 then (Key(j - 6, 'm'), [SuitGlyph(0, j - 6)])
    else if j < 25 then (Key(j - 15, 's'), [SuitGlyph(1, j - 15)])
    else if j < 34 then (Key(j - 24, 'p'), [SuitGlyph(2, j - 24)])
    else if j == 34 then (Key(0, 'm'), [SuitGlyph(0, 5), '*'])
    else if j == 35 then (Key(0, 'p'), [SuitGlyph(2, 5), '*'])
    else if j == 36 then (Key(0, 's'), [SuitGlyph(1, 5), '*'])
    else ("**", [TileBack])
  }

  /** the first `n` entries of JI_DECODE */
  function Entries(n: nat): (d: Dicts.Dict<string, string>)
    requires n <= 38
    ensures |d| == n && forall j :: 0 <= j < n ==> d[j] == Entry(j)
  {
    if n == 0 then [] else Entries(n - 1) + [Entry(n - 1)]
  }

  /** JI_DECODE in its insertion order */
  const JiDecodeSize: nat := 38

  const JiDecode: Dicts.Dict<string, string> := Entries(JiDecodeSize)

  /** what every key of JiDecode looks like: two characters, a digit or '*'
      followed by a suit letter or '*' */
  predicate KeyShape(k: string)
  {
    |k| == 2 && (k[0] == '*' || IsDigit(k[0])) && k[1] in "mpsz*"
  }

  /** where a key sits in JiDecode, -1 for a string that is not a key */
  function KeySlot(k: string): (r: int)
    ensures -1 <= r < 38
    ensures r >= 0 ==> KeyShape(k)
  {
    if k == "**" then 37
    else if |k| != 2 || !IsDigit(k[0]) then -1
    else
      var d := k[0] as int - '0' as int;
      if d == 0 then (if k[1] == 'm' then 34 else if k[1] == 'p' then 35 else if k[1] == 's' then 36 else -1)
      else if k[1] == 'z' then (if d <= 7 then d - 1 else -1)
      else if k[1] == 'm' then 6 + d
      else if k[1] == 's' then 15 + d
      else if k[1] == 'p' then 24 + d
      else -1
  }

  /** the key of every entry leads back to that entry's position */
  lemma EntrySlot(j: int)
    requires 0 <= j < 38
    ensures KeySlot(Entry(j).0) == j
  {
  }

  /** a string with a slot is the key stored there */
  lemma KeyAtSlot(tile: string)
    requires KeySlot(tile) >= 0
    ensures Entry(KeySlot(tile)).0 == tile
  {
    if tile != "**" {
      var d := tile[0] as int - '0' as int;
      assert tile == Key(d, tile[1]);
    }
  }

  lemma JiDecodeKeyShapes()
    ensures |JiDecode| == 38
    ensures forall j :: 0 <= j < |JiDecode| ==> KeyShape(JiDecode[j].0)
  {
    forall j | 0 <= j < 38
      ensures KeyShape(JiDecode[j].0)
    {
      EntrySlot(j);
    }
  }

  /** no key is inserted twice */
  lemma JiDecodeDistinct()
    ensures Dicts.DistinctKeys(JiDecode)
  {
    forall i, j | 0 <= i < j < |JiDecode|
      ensures JiDecode[i].0 != JiDecode[j].0
    {
      EntrySlot(i);
      EntrySlot(j);
    }
  }

  /** tile_exp: the entry at the string's slot, the string itself where it has none */
  function TileExp(tile: string): string
  {
    var j := KeySlot(tile);
    if j >= 0 then Entry(j).1 else tile
  }

  /** no glyph of JI_DECODE is a line break, so tile_exp brings none in */
  lemma TileExpNoBreak(tile: string)
    requires '\n' !in tile
    ensures '\n' !in TileExp(tile)
  {
    var j := KeySlot(tile);
    if j >= 0 {
      var g := Entry(j).1;
      assert forall i :: 0 <= i < |g| ==> g[i] as int >= 0x1F000 || g[i] == '*';
    }
  }

  /** tile_exp is JI_DECODE.get(tile, tile) */
  lemma TileExpLookup(tile: string)
    ensures TileExp(tile) == match Dicts.Get(JiDecode, tile) case Some(g) => g case None => tile
  {
    JiDecodeDistinct();
    var j := KeySlot(tile);
    if j >= 0 {
      KeyAtSlot(tile);
      Dicts.GetAt(JiDecode, j);
    } else {
      forall i | 0 <= i < |JiDecode|
        ensures JiDecode[i].0 != tile
      {
        EntrySlot(i);
      }
    }
  }

  /** the glyph tile_exp gives the tile with index i of TILE_LIST */
  function TileGlyph(i: int): char
    requires 0 <= i < 34
  {
    if i < 9 then SuitGlyph(0, i + 1)
    else if i < 18 then SuitGlyph(2, i - 8)
    else if i < 27 then SuitGlyph(1, i - 17)
    else HonorGlyph(i - 26)
  }

  /** which tile a glyph shows, -1 for a character that is no tile's glyph */
  function GlyphTile(g: char): int
  {
    var v := g as int;
    if 0x1F007 <= v <= 0x1F00F then v - 0x1F007
    else if 0x1F010 <= v <= 0x1F018 then 18 + (v - 0x1F010)
    else if 0x1F019 <= v <= 0x1F021 then 9 + (v - 0x1F019)
    else if 0x1F000 <= v <= 0x1F003 then 27 + (v - 0x1F000)
    else if v == 0x1F004 then 33
    else if v == 0x1F005 then 32
    else if v == 0x1F006 then 31
    else -1
  }

  /** the tile can be read back from its glyph, so no two tiles share one */
  lemma GlyphInverse(i: int)
    requires 0 <= i < 34
    ensures GlyphTile(TileGlyph(i)) == i
  {
  }

  lemma GlyphsDistinct(i: int, j: int)
    requires 0 <= i < 34 && 0 <= j < 34 && i != j
    ensures TileGlyph(i) != TileGlyph(j)
  {
    GlyphInverse(i);
    GlyphInverse(j);
  }

  /** tile_exp renders the tile with index i of TILE_LIST as its one glyph */
  lemma TileListGlyph(i: int)
    requires 0 <= i < 34
    ensures TileExp(TileList[i]) == [TileGlyph(i)]
  {
    var t := TileList[i];
    assert t == [DigitChar(i % 9 + 1), Suits[i / 9]];
    var j := KeySlot(t);
    if i < 9 {
      assert j == 7 + i;
    } else if i < 18 {
      assert j == 25 + (i - 9);
    } else if i < 27 {
      assert j == 16 + (i - 18);
    } else {
      assert j == i - 27;
    }
  }

  /** a red five renders as the glyph of the plain five followed by '*' */
  lemma RedFiveGlyph(c: char)
    requires c in "mps"
    ensures TileExp(['0', c]) == TileExp(['5', c]) + "*"
  {
  }

  // ------------------------------------------------------------- meld text

  /** ARROWS: seat arrows, by the seat a meld's tile came from */
  const Arrows: string := "↑←↓→"

  /** ARROWS[i], counting from the end for negative i; None where Python raises IndexError */
  function Arrow(i: int): (r: Option<char>)
    ensures r.Some? <==> -4 <= i < 4
    ensures r.Some? ==> r.value in Arrows
  {
    if 0 <= i < 4 then Some(Arrows[i]) else if -4 <= i < 0 then Some(Arrows[i + 4]) else None
  }

  /** CallingInfo: a meld, its category and the seat it was called from
      (for a concealed quad, the seat of the player who declared it) */
  datatype CallingInfo = CallingInfo(callingStr: string, callingType: Category, fromPlayer: int)

  /** s[:2] */
  function Prefix2(s: string): string
  {
    s[..if |s| < 2 then |s| else 2]
  }

  /** CallingInfo.__find_parenthized; None where `index(")")` raises */
  function FindParenthesized(s: string): Option<string>
  {
    var l := Find(s, "(");
    if l >= 0 then
      var rt := Find(s, ")");
      if rt < 0 then None
      else Some(if rt < l + 1 then "" else s[l + 1..rt])
    else Some(Prefix2(s))
  }

  /** the first `c` of `s` is at `k` */
  lemma FindChar(s: string, c: char, k: int)
    requires 0 <= k < |s| && s[k] == c
    requires forall j :: 0 <= j < k ==> s[j] != c
    ensures Find(s, [c]) == k
  {
    assert OccursAt(s, [c], k);
    forall j | 0 <= j < k
      ensures !OccursAt(s, [c], j)
    {
      assert s[j..j + 1] == [s[j]];
    }
  }

  /** the tile between the first parentheses is what __find_parenthized reads back */
  lemma ParenthesizedTile(a: string, t: string, b: string)
    requires '(' !in a && ')' !in a && ')' !in t
    ensures FindParenthesized(a + "(" + t + ")" + b) == Some(t)
  {
    var s := a + "(" + t + ")" + b;
    FindChar(s, '(', |a|);
    forall j | 0 <= j < |a| + 1 + |t|
      ensures s[j] != ')'
    {
      if j < |a| { assert s[j] == a[j]; }
      else if j > |a| { assert s[j] == t[j - |a| - 1]; }
    }
    FindChar(s, ')', |a| + 1 + |t|);
    assert s[|a| + 1..|a| + 1 + |t|] == t;
  }

  /** where the Shun/Ko rendering puts the arrow: just after the first '(' when
      the tile came from seat 3, otherwise just before the first ')'; -1 where
      that parenthesis is missing */
  function ArrowSlot(c: CallingInfo): (k: int)
    ensures -1 <= k <= |c.callingStr|
  {
    if c.fromPlayer == 3 then
      var l := Find(c.callingStr, "(");
      if l < 0 then -1 else l + 1
    else Find(c.callingStr, ")")
  }

  /** `s` with `a` put in at position `k`; taking it out again gives `s` back */
  function InsertAt(s: string, k: int, a: char): (r: string)
    requires 0 <= k <= |s|
    ensures |r| == |s| + 1 && r[k] == a
    ensures r[..k] + r[k + 1..] == s
  {
    var r := s[..k] + [a] + s[k..];
    assert r[..k] == s[..k] && r[k + 1..] == s[k..];
    r
  }

  /** the text of a quad around its tile `t`: an open quad shows the called
      tile with the arrow in the third place, an added quad shows the
      arrowed tile in the first parentheses and the added tile in the second;
      the arrow comes before the tile when it came from seat 3 */
  function QuadText(cat: Category, t: string, a: char, fromThree: bool): string
  {
    var arrowed := if fromThree then [a] + t else t + [a];
    if cat.Minkan? then t + t + "(" + arrowed + ")" + t
    else t + "(" + arrowed + ")" + t + "(" + t + ")"
  }

  /** CallingInfo.__str__; None where Python raises (a missing parenthesis,
      an arrow index out of range) */
  function CallingText(c: CallingInfo): (r: Option<string>)
    ensures c.callingType.Ankan? ==> r == Some("**" + Prefix2(c.callingStr) + Prefix2(c.callingStr) + "**")
    ensures (c.callingType.Shun? || c.callingType.Ko?) ==>
      (r.Some? <==> ArrowSlot(c) >= 0 && Arrow(c.fromPlayer).Some?)
    ensures (c.callingType.Shun? || c.callingType.Ko?) && r.Some? ==>
      |r.value| == |c.callingStr| + 1 &&
      r.value[ArrowSlot(c)] == Arrow(c.fromPlayer).value &&
      r.value[..ArrowSlot(c)] + r.value[ArrowSlot(c) + 1..] == c.callingStr
    ensures (c.callingType.Minkan? || c.callingType.Kakan?) ==>
      (r.Some? <==> FindParenthesized(c.callingStr).Some? && Arrow(c.fromPlayer).Some?)
    ensures (c.callingType.Minkan? || c.callingType.Kakan?) && r.Some? ==>
      r.value == QuadText(c.callingType, FindParenthesized(c.callingStr).value,
                          Arrow(c.fromPlayer).value, c.fromPlayer == 3)
  {
    var s := c.callingStr;
    var arrow := Arrow(c.fromPlayer);
    if c.callingType.Ankan? then Some("**" + Prefix2(s) + Prefix2(s) + "**")
    else if c.callingType.Minkan? || c.callingType.Kakan? then
      var t := FindParenthesized(s);
      if t.None? || arrow.None? then None
      else Some(QuadText(c.callingType, t.value, arrow.value, c.fromPlayer == 3))
    else
      var k := ArrowSlot(c);
      if k < 0 || arrow.None? then None else Some(InsertAt(s, k, arrow.value))
  }

  /** an open quad from seat 3 puts the arrow before the called tile, from any other seat after it */
  lemma OpenQuadText(a: string, t: string, b: string, from: int)
    requires '(' !in a && ')' !in a && ')' !in t && -4 <= from < 4
    ensures var arrow := Arrow(from).value;
      CallingText(CallingInfo(a + "(" + t + ")" + b, Minkan, from)) ==
        Some(if from == 3 then t + t + "(" + [arrow] + t + ")" + t else t + t + "(" + t + [arrow] + ")" + t)
  {
    ParenthesizedTile(a, t, b);
    var arrow := Arrow(from).value;
    if from == 3 {
      assert QuadText(Minkan, t, arrow, true) == t + t + "(" + [arrow] + t + ")" + t;
    } else {
      assert QuadText(Minkan, t, arrow, false) == t + t + "(" + t + [arrow] + ")" + t;
    }
  }

  // ------------------------------------------------------------ river tokens

  /** the marks a river token can carry after its tile: from the hand, called away, riichi */
  const TileMarks: set<char> := {'h', '-', 'r'}

  /** a river token is its tile name `tile[:2]` followed by its tags `tile[2:]` */
  lemma TileSplit(tile: string)
    requires |tile| >= 2
    ensures tile == Prefix2(tile) + TileExtra(tile)
  {
    assert tile == tile[..2] + tile[2..];
  }

  /** tile[2:]: what follows the two characters of the tile name */
  function TileExtra(tile: string): (e: string)
    ensures |e| == if |tile| < 2 then 0 else |tile| - 2
    ensures forall k :: 0 <= k < |e| ==> e[k] == tile[k + 2]
  {
    if |tile| <= 2 then "" else TileExtra(tile[..|tile| - 1]) + [tile[|tile| - 1]]
  }

  /** get_turn_from_river_tile; None where its assert fails */
  function TurnOf(tile: string): Option<nat>
  {
    var t := Strip(TileExtra(tile), TileMarks);
    if IsDigits(t) then Some(DigitsValue(t)) else None
  }

  lemma {:induction false} StripConcat(a: string, b: string, marks: set<char>)
    ensures Strip(a + b, marks) == Strip(a, marks) + Strip(b, marks)
  {
    if b == [] {
      assert a + b == a;
    } else {
      var n := |b| - 1;
      assert (a + b)[|a| + n] == b[n];
      assert (a + b)[..|a| + n] == a + b[..n];
      StripConcat(a, b[..n], marks);
    }
  }

  lemma {:induction false} StripAll(s: string, marks: set<char>)
    requires forall c :: c in s ==> c in marks
    ensures Strip(s, marks) == []
  {
    if s != [] {
      assert s[|s| - 1] in s;
      StripAll(s[..|s| - 1], marks);
    }
  }

  /** a token made of a tile, its turn and any of the marks reads back as that turn */
  lemma AfterName<T>(a: seq<T>, b: seq<T>, c: seq<T>)
    requires |a| == 2
    ensures (a + b + c)[2..] == b + c
  {
  }

  lemma TurnOfToken(name: string, turn: nat, marks: string)
    requires |name| == 2
    requires forall c :: c in marks ==> c in TileMarks
    ensures TurnOf(name + NatToString(turn) + marks) == Some(turn)
  {
    var digits := NatToString(turn);
    var tile := name + digits + marks;
    NatToStringRoundTrip(turn);
    AfterName(name, digits, marks);
    assert TileExtra(tile) == tile[2..];
    StripConcat(digits, marks, TileMarks);
    StripAll(marks, TileMarks);
    DigitsKept(digits);
    assert Strip(TileExtra(tile), TileMarks) == digits;
  }

  /** a character after the tile that is neither a digit nor a mark makes the assert fail */
  lemma TurnOfRejects(tile: string, k: int)
    requires 2 <= k < |tile| && !IsDigit(tile[k]) && tile[k] !in TileMarks
    ensures TurnOf(tile) == None
  {
    var extra := TileExtra(tile);
    assert extra[k - 2] == tile[k];
    var j := StripKeepsAt(extra, TileMarks, k - 2);
    assert !IsDigit(Strip(extra, TileMarks)[j]);
  }

  /** a character that is not a mark survives the stripping */
  lemma {:induction false} StripKeepsAt(s: string, marks: set<char>, k: int) returns (j: int)
    requires 0 <= k < |s| && s[k] !in marks
    ensures 0 <= j < |Strip(s, marks)| && Strip(s, marks)[j] == s[k]
  {
    var n := |s| - 1;
    if k == n {
      j := |Strip(s[..n], marks)|;
    } else {
      assert s[..n][k] == s[k];
      j := StripKeepsAt(s[..n], marks, k);
    }
  }

  /** no digit is a mark */
  lemma {:induction false} DigitsKept(s: string)
    requires forall i :: 0 <= i < |s| ==> IsDigit(s[i])
    ensures Strip(s, TileMarks) == s
  {
    if s != [] {
      var n := |s| - 1;
      assert s[n] !in TileMarks by { assert IsDigit(s[n]); }
      DigitsKept(s[..n]);
      assert s[..n] + [s[n]] == s;
    }
  }

  // ------------------------------------------------------------------ yaku

  /** YAKU_LIST_SEP: the first indices in YAKU_LIST of the category headers
      一番, 二番, 三番, 五番, 六番, 满贯, 役满, 双倍役满 */
  const YakuListSep: seq<int> := [29, 43, 47, 49, 51, 53, 65, 70]

  /** YAKU_SUFFIXES */
  const YakuSuffixes: seq<string> := ["+1", "+2", "+3", "+5", "+6", "满贯", "役满", "双倍役满"]

  /** get_yaku_suffix: the suffix paired with the first separator above the
      index; None where its assert fails */
  method YakuSuffix(yakuIndex: int) returns (r: Option<string>)
    ensures r.None? <==> yakuIndex >= YakuListSep[|YakuListSep| - 1]
    ensures r.Some? ==>
      exists k :: 0 <= k < |YakuListSep| && yakuIndex < YakuListSep[k] &&
        (forall j :: 0 <= j < k ==> YakuListSep[j] <= yakuIndex) && r.value == YakuSuffixes[k]
  {
    if yakuIndex >= YakuListSep[|YakuListSep| - 1] {
      return None;
    }
    var k := 0;
    while yakuIndex >= YakuListSep[k]
      invariant 0 <= k < |YakuListSep|
      invariant forall j :: 0 <= j < k ==> YakuListSep[j] <= yakuIndex
      decreases |YakuListSep| - k
    {
      k := k + 1;
    }
    r := Some(YakuSuffixes[k]);
  }
}
