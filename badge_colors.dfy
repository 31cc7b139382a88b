/**
 * Badge colours: an option index picks one of 17 hues through a shuffled
 * order (offset 13, stride 5) and one of 8 intensities, with a text
 * intensity that contrasts with the background.
 */
module BadgeColors {
  import opened Wrappers
  import opened JsStrings

  datatype BadgeColorScheme = BadgeColorScheme(bg: string, text: string)

  const BaseColors: seq<string> := [
    "violet", "purple", "indigo", "blue", "sky", "cyan", "teal", "emerald", "green",
    "lime", "yellow", "amber", "orange", "red", "rose", "pink", "fuchsia"
  ]

  /** The intensity levels from dark to light. */
  const IntensityLevels: seq<nat> := [800, 700, 600, 500, 400, 300, 200, 100]

  const ColorCount: nat := 17
  const IntensityCount: nat := 8

  /** `Math.max(0, colorCount - 4)`. */
  const StartOffset: nat := 13
  const Stride: nat := 5

  /** JavaScript's `%`: the remainder takes the sign of the dividend. */
  function JsRem(a: int, b: int): (r: int)
    requires b > 0
    ensures a >= 0 ==> 0 <= r < b && r == a % b
    ensures a < 0 ==> -b < r <= 0
  {
    if a >= 0 then a % b else -((-a) % b)
  }

  /** `BASE_COLORS[i]`; outside the table that is `undefined`. */
  function ColorName(i: int): string {
    if 0 <= i < |BaseColors| then BaseColors[i] else "undefined"
  }

  /** The hue an index picks. */
  function ColorIndex(index: int): (c: int)
    ensures index >= 0 ==> 0 <= c < ColorCount
  {
    JsRem(StartOffset + JsRem(index, ColorCount) * Stride, ColorCount)
  }

  /** The intensity an index picks: `Math.floor(index / 17) % 8`. */
  function IntensityIndex(index: int): (t: int)
    ensures index >= 0 ==> 0 <= t < IntensityCount
  {
    JsRem(index / ColorCount, IntensityCount)
  }

  /** `bgIntensity <= 400 ? 800 : 100`; an `undefined` level compares false. */
  function TextIntensity(level: Option<nat>): nat {
    if level.Some? && level.value <= 400 then 800 else 100
  }

  /** `INTENSITY_LEVELS[i]`, `None` standing for `undefined`. */
  function LevelAt(i: int): Option<nat> {
    if 0 <= i < |IntensityLevels| then Some(IntensityLevels[i]) else None
  }

  function LevelText(level: Option<nat>): string {
    if level.Some? then NatToString(level.value) else "undefined"
  }

  /** `calculateColorScheme(index)`. */
  function CalculateColorScheme(index: int): BadgeColorScheme {
    var color := ColorName(ColorIndex(index));
    var level := LevelAt(IntensityIndex(index));
    BadgeColorScheme("bg-" + color + "-" + LevelText(level), "text-" + color + "-" + NatToString(TextIntensity(level)))
  }

  /** `getBadgeColor(optionIndex)`. */
  function GetBadgeColor(optionIndex: int): BadgeColorScheme {
    CalculateColorScheme(optionIndex)
  }

  /** `getBadgeColorFrom(color, intensity)`. */
  function GetBadgeColorFrom(color: string, intensity: nat): (r: BadgeColorScheme)
    ensures StartsWith(r.bg, "bg-" + color + "-") && StartsWith(r.text, "text-" + color + "-")
  {
    var textIntensity := if intensity <= 400 then 800 else 100;
    BadgeColorScheme("bg-" + color + "-" + NatToString(intensity), "text-" + color + "-" + NatToString(textIntensity))
  }

  /**
   * `BADGE_CLASS_SAFELIST`: every badge class pair, written block by
   * block from intensity 800 down to 100, each block hue by hue.
   */
  const BadgeClassSafelist: seq<string> := Joined(SafelistBlocks)

  /** The blocks of the safelist, from intensity 800 down to 100. */
  const SafelistBlocks: seq<seq<string>> :=
    [Safelist800, Safelist700, Safelist600, Safelist500, Safelist400, Safelist300, Safelist200, Safelist100]

  /** The blocks joined in order. */
  function Joined(blocks: seq<seq<string>>): seq<string> {
    if blocks == [] then [] else blocks[0] + Joined(blocks[1..])
  }

  /** One safelist entry: `bg-{color}-{level} text-{color}-{textLevel}`. */
  function ClassPair(color: string, level: string, textLevel: string): string {
    ("bg-" + color + "-" + level) + " " + ("text-" + color + "-" + textLevel)
  }

  const Safelist800: seq<string> := [
    ClassPair("violet", "800", "100"),
    ClassPair("purple", "800", "100"),
    ClassPair("indigo", "800", "100"),
    ClassPair("blue", "800", "100"),
    ClassPair("sky", "800", "100"),
    ClassPair("cyan", "800", "100"),
    ClassPair("teal", "800", "100"),
    ClassPair("emerald", "800", "100"),
    ClassPair("green", "800", "100"),
    ClassPair("lime", "800", "100"),
    ClassPair("yellow", "800", "100"),
    ClassPair("amber", "800", "100"),
    ClassPair("orange", "800", "100"),
    ClassPair("red", "800", "100"),
    ClassPair("rose", "800", "100"),
    ClassPair("pink", "800", "100"),
    ClassPair("fuchsia", "800", "100")
  ]

  const Safelist700: seq<string> := [
    ClassPair("violet", "700", "100"),
    ClassPair("purple", "700", "100"),
    ClassPair("indigo", "700", "100"),
    ClassPair("blue", "700", "100"),
    ClassPair("sky", "700", "100"),
    ClassPair("cyan", "700", "100"),
    ClassPair("teal", "700", "100"),
    ClassPair("emerald", "700", "100"),
    ClassPair("green", "700", "100"),
    ClassPair("lime", "700", "100"),
    ClassPair("yellow", "700", "100"),
    ClassPair("amber", "700", "100"),
    ClassPair("orange", "700", "100"),
    ClassPair("red", "700", "100"),
    ClassPair("rose", "700", "100"),
    ClassPair("pink", "700", "100"),
    ClassPair("fuchsia", "700", "100")
  ]

  const Safelist600: seq<string> := [
    ClassPair("violet", "600", "100"),
    ClassPair("purple", "600", "100"),
    ClassPair("indigo", "600", "100"),
    ClassPair("blue", "600", "100"),
    ClassPair("sky", "600", "100"),
    ClassPair("cyan", "600", "100"),
    ClassPair("teal", "600", "100"),
    ClassPair("emerald", "600", "100"),
    ClassPair("green", "600", "100"),
    ClassPair("lime", "600", "100"),
    ClassPair("yellow", "600", "100"),
    ClassPair("amber", "600", "100"),
    ClassPair("orange", "600", "100"),
    ClassPair("red", "600", "100"),
    ClassPair("rose", "600", "100"),
    ClassPair("pink", "600", "100"),
    ClassPair("fuchsia", "600", "100")
  ]

  const Safelist500: seq<string> := [
    ClassPair("violet", "500", "100"),
    ClassPair("purple", "500", "100"),
    ClassPair("indigo", "500", "100"),
    ClassPair("blue", "500", "100"),
    ClassPair("sky", "500", "100"),
    ClassPair("cyan", "500", "100"),
    ClassPair("teal", "500", "100"),
    ClassPair("emerald", "500", "100"),
    ClassPair("green", "500", "100"),
    ClassPair("lime", "500", "100"),
    ClassPair("yellow", "500", "100"),
    ClassPair("amber", "500", "100"),
    ClassPair("orange", "500", "100"),
    ClassPair("red", "500", "100"),
    ClassPair("rose", "500", "100"),
    ClassPair("pink", "500", "100"),
    ClassPair("fuchsia", "500", "100")
  ]

  const Safelist400: seq<string> := [
    ClassPair("violet", "400", "800"),
    ClassPair("purple", "400", "800"),
    ClassPair("indigo", "400", "800"),
    ClassPair("blue", "400", "800"),
    ClassPair("sky", "400", "800"),
    ClassPair("cyan", "400", "800"),
    ClassPair("teal", "400", "800"),
    ClassPair("emerald", "400", "800"),
    ClassPair("green", "400", "800"),
    ClassPair("lime", "400", "800"),
    ClassPair("yellow", "400", "800"),
    ClassPair("amber", "400", "800"),
    ClassPair("orange", "400", "800"),
    ClassPair("red", "400", "800"),
    ClassPair("rose", "400", "800"),
    ClassPair("pink", "400", "800"),
    ClassPair("fuchsia", "400", "800")
  ]

  const Safelist300: seq<string> := [
    ClassPair("violet", "300", "800"),
    ClassPair("purple", "300", "800"),
    ClassPair("indigo", "300", "800"),
    ClassPair("blue", "300", "800"),
    ClassPair("sky", "300", "800"),
    ClassPair("cyan", "300", "800"),
    ClassPair("teal", "300", "800"),
    ClassPair("emerald", "300", "800"),
    ClassPair("green", "300", "800"),
    ClassPair("lime", "300", "800"),
    ClassPair("yellow", "300", "800"),
    ClassPair("amber", "300", "800"),
    ClassPair("orange", "300", "800"),
    ClassPair("red", "300", "800"),
    ClassPair("rose", "300", "800"),
    ClassPair("pink", "300", "800"),
    ClassPair("fuchsia", "300", "800")
  ]

  const Safelist200: seq<string> := [
    ClassPair("violet", "200", "800"),
    ClassPair("purple", "200", "800"),
    ClassPair("indigo", "200", "800"),
    ClassPair("blue", "200", "800"),
    ClassPair("sky", "200", "800"),
    ClassPair("cyan", "200", "800"),
    ClassPair("teal", "200", "800"),
    ClassPair("emerald", "200", "800"),
    ClassPair("green", "200", "800"),
    ClassPair("lime", "200", "800"),
    ClassPair("yellow", "200", "800"),
    ClassPair("amber", "200", "800"),
    ClassPair("orange", "200", "800"),
    ClassPair("red", "200", "800"),
    ClassPair("rose", "200", "800"),
    ClassPair("pink", "200", "800"),
    ClassPair("fuchsia", "200", "800")
  ]

  const Safelist100: seq<string> := [
    ClassPair("violet", "100", "800"),
    ClassPair("purple", "100", "800"),
    ClassPair("indigo", "100", "800"),
    ClassPair("blue", "100", "800"),
    ClassPair("sky", "100", "800"),
    ClassPair("cyan", "100", "800"),
    ClassPair("teal", "100", "800"),
    ClassPair("emerald", "100", "800"),
    ClassPair("green", "100", "800"),
    ClassPair("lime", "100", "800"),
    ClassPair("yellow", "100", "800"),
    ClassPair("amber", "100", "800"),
    ClassPair("orange", "100", "800"),
    ClassPair("red", "100", "800"),
    ClassPair("rose", "100", "800"),
    ClassPair("pink", "100", "800"),
    ClassPair("fuchsia", "100", "800")
  ]

  /** A whole number of hundreds prints as its digit and two zeros. */
  lemma HundredsText(d: nat)
    requires 1 <= d <= 9
    ensures NatToString(d * 100) == [DigitChar(d), '0', '0']
  {
    assert NatToString(d * 10) == [DigitChar(d), '0'] by {
      assert (d * 10) / 10 == d && (d * 10) % 10 == 0;
    }
    assert (d * 100) / 10 == d * 10 && (d * 100) % 10 == 0;
  }

  /** The digits of each intensity level. */
  lemma LevelTexts(t: nat)
    requires t < IntensityCount
    ensures NatToString(IntensityLevels[t]) == ["800", "700", "600", "500", "400", "300", "200", "100"][t]
    ensures NatToString(TextIntensity(Some(IntensityLevels[t]))) == if t >= 4 then "800" else "100"
  {
    assert IntensityLevels[t] == (8 - t) * 100;
    HundredsText(8 - t);
    HundredsText(if t >= 4 then 8 else 1);
  }

  /** The safelist entry of hue `c` at intensity `t`. */
  function SafelistEntry(c: nat, t: nat): string
    requires c < ColorCount && t < IntensityCount
  {
    var level := ["800", "700", "600", "500", "400", "300", "200", "100"][t];
    var textLevel := if t >= 4 then "800" else "100";
    ClassPair(BaseColors[c], level, textLevel)
  }

  /** The intensity-800 block of the safelist. */
  lemma SafelistBlock800(c: nat)
    requires c < ColorCount
    ensures |Safelist800| == ColorCount && Safelist800[c] == SafelistEntry(c, 0)
  {
    assert Safelist800 == seq(ColorCount, h requires 0 <= h < ColorCount => SafelistEntry(h, 0));
  }

  /** The intensity-700 block of the safelist. */
  lemma SafelistBlock700(c: nat)
    requires c < ColorCount
    ensures |Safelist700| == ColorCount && Safelist700[c] == SafelistEntry(c, 1)
  {
    assert Safelist700 == seq(ColorCount, h requires 0 <= h < ColorCount => SafelistEntry(h, 1));
  }

  /** The intensity-600 block of the safelist. */
  lemma SafelistBlock600(c: nat)
    requires c < ColorCount
    ensures |Safelist600| == ColorCount && Safelist600[c] == SafelistEntry(c, 2)
  {
    assert Safelist600 == seq(ColorCount, h requires 0 <= h < ColorCount => SafelistEntry(h, 2));
  }

  /** The intensity-500 block of the safelist. */
  lemma SafelistBlock500(c: nat)
    requires c < ColorCount
    ensures |Safelist500| == ColorCount && Safelist500[c] == SafelistEntry(c, 3)
  {
    assert Safelist500 == seq(ColorCount, h requires 0 <= h < ColorCount => SafelistEntry(h, 3));
  }

  /** The intensity-400 block of the safelist. */
  lemma SafelistBlock400(c: nat)
    requires c < ColorCount
    ensures |Safelist400| == ColorCount && Safelist400[c] == SafelistEntry(c, 4)
  {
    assert Safelist400 == seq(ColorCount, h requires 0 <= h < ColorCount => SafelistEntry(h, 4));
  }

  /** The intensity-300 block of the safelist. */
  lemma SafelistBlock300(c: nat)
    requires c < ColorCount
    ensures |Safelist300| == ColorCount && Safelist300[c] == SafelistEntry(c, 5)
  {
    assert Safelist300 == seq(ColorCount, h requires 0 <= h < ColorCount => SafelistEntry(h, 5));
  }

  /** The intensity-200 block of the safelist. */
  lemma SafelistBlock200(c: nat)
    requires c < ColorCount
    ensures |Safelist200| == ColorCount && Safelist200[c] == SafelistEntry(c, 6)
  {
    assert Safelist200 == seq(ColorCount, h requires 0 <= h < ColorCount => SafelistEntry(h, 6));
  }

  /** The intensity-100 block of the safelist. */
  lemma SafelistBlock100(c: nat)
    requires c < ColorCount
    ensures |Safelist100| == ColorCount && Safelist100[c] == SafelistEntry(c, 7)
  {
    assert Safelist100 == seq(ColorCount, h requires 0 <= h < ColorCount => SafelistEntry(h, 7));
  }

  /** Each block of the safelist has one entry per hue. */
  lemma SafelistBlockLengths()
    ensures |Safelist800| == |Safelist700| == |Safelist600| == |Safelist500| == ColorCount
    ensures |Safelist400| == |Safelist300| == |Safelist200| == |Safelist100| == ColorCount
  {
  }

  /** Entry `c` of block `t` is hue `c` at intensity `t`. */
  lemma SafelistBlockEntry(c: nat, t: nat)
    requires c < ColorCount && t < IntensityCount
    ensures |SafelistBlocks| == IntensityCount && SafelistBlocks[t][c] == SafelistEntry(c, t)
  {
    if t == 0 {
      SafelistBlock800(c);
    } else if t == 1 {
      SafelistBlock700(c);
    } else if t == 2 {
      SafelistBlock600(c);
    } else if t == 3 {
      SafelistBlock500(c);
    } else if t == 4 {
      SafelistBlock400(c);
    } else if t == 5 {
      SafelistBlock300(c);
    } else if t == 6 {
      SafelistBlock200(c);
    } else {
      SafelistBlock100(c);
    }
  }

  /** Blocks of 17 entries each, joined: entry `c` of block `t` sits at `17 * t + c`. */
  lemma {:induction false} JoinedAt(blocks: seq<seq<string>>, t: nat, c: nat)
    requires forall k :: 0 <= k < |blocks| ==> |blocks[k]| == 17
    requires t < |blocks| && c < 17
    ensures |Joined(blocks)| == 17 * |blocks|
    ensures Joined(blocks)[17 * t + c] == blocks[t][c]
    decreases t
  {
    JoinedLength(blocks);
    JoinedLength(blocks[1..]);
    if t > 0 {
      JoinedAt(blocks[1..], t - 1, c);
    }
  }

  lemma {:induction false} JoinedLength(blocks: seq<seq<string>>)
    requires forall k :: 0 <= k < |blocks| ==> |blocks[k]| == 17
    ensures |Joined(blocks)| == 17 * |blocks|
  {
    if blocks != [] {
      JoinedLength(blocks[1..]);
    }
  }

  /** The safelist holds every hue at every intensity, intensity by intensity. */
  lemma SafelistIsGrid(c: nat, t: nat)
    requires c < ColorCount && t < IntensityCount
    ensures |BadgeClassSafelist| == 136 && BadgeClassSafelist[t * ColorCount + c] == SafelistEntry(c, t)
  {
    SafelistBlockLengths();
    SafelistBlockEntry(c, t);
    JoinedAt(SafelistBlocks, t, c);
  }

  /** The hue position an index starts from before shuffling. */
  function Unshuffle(c: int): int {
    ((c + 4) * 7) % ColorCount
  }

  /** A remainder below 17 survives adding multiples of 17. */
  lemma RemAfterMultiple(r: int, k: int)
    requires 0 <= r < 17
    ensures (r + 17 * k) % 17 == r
  {
    var y := r + 17 * k;
    assert y == 17 * (y / 17) + y % 17;
    assert 17 * (k - y / 17) == y % 17 - r;
  }

  /** The hue and intensity of an index, with the constants written out. */
  lemma IndicesOf(index: int)
    requires index >= 0
    ensures ColorIndex(index) == (13 + (index % 17) * 5) % 17
    ensures IntensityIndex(index) == (index / 17) % 8
  {
  }

  /** Stride 5 is coprime to 17: the shuffle on 0..16 is undone by `Unshuffle`. */
  lemma ShuffleInverse(u: int)
    requires 0 <= u < ColorCount
    ensures Unshuffle(ColorIndex(u)) == u
  {
    IndicesOf(u);
    var x := 13 + u * 5;
    var q := x / 17;
    assert ColorIndex(u) == x - 17 * q;
    assert (x - 17 * q + 4) * 7 == u + 17 * (7 + 2 * u - 7 * q);
    RemAfterMultiple(u, 7 + 2 * u - 7 * q);
  }

  /** Every hue is reached: the shuffle is onto 0..16. */
  lemma ShuffleOnto(c: int)
    requires 0 <= c < ColorCount
    ensures 0 <= Unshuffle(c) < ColorCount && ColorIndex(Unshuffle(c)) == c
  {
    var y := (c + 4) * 7;
    var p := y / 17;
    var u := y - 17 * p;
    assert Unshuffle(c) == u;
    IndicesOf(u);
    assert u % 17 == u;
    assert 13 + u * 5 == c + 17 * (9 + 2 * c - 5 * p);
    RemAfterMultiple(c, 9 + 2 * c - 5 * p);
  }

  /** The position in the safelist of the pair an index picks. */
  function SafelistPosition(index: int): (k: int)
    requires index >= 0
    ensures 0 <= k < 136
  {
    IntensityIndex(index) * ColorCount + ColorIndex(index)
  }

  /** Indices 0..135 pick pairwise different hue and intensity combinations. */
  lemma {:induction false} IndexRecovered(index: int)
    requires 0 <= index < 136
    ensures index == IntensityIndex(index) * ColorCount + Unshuffle(ColorIndex(index))
  {
    var u := index % 17;
    IndicesOf(index);
    IndicesOf(u);
    assert u % 17 == u;
    assert ColorIndex(index) == ColorIndex(u);
    ShuffleInverse(u);
    assert IntensityIndex(index) == index / 17;
    assert index == (index / 17) * 17 + u;
  }

  lemma SafelistPositionInjective(i: int, j: int)
    requires 0 <= i < 136 && 0 <= j < 136 && i != j
    ensures SafelistPosition(i) != SafelistPosition(j)
  {
    IndexRecovered(i);
    IndexRecovered(j);
  }

  /** The scheme repeats with period 17 x 8 = 136. */
  lemma {:induction false} SchemePeriodic(index: int)
    requires index >= 0
    ensures CalculateColorScheme(index + 136) == CalculateColorScheme(index)
  {
    PeriodicIndices(index);
  }

  lemma PeriodicIndices(index: int)
    requires index >= 0
    ensures ColorIndex(index + 136) == ColorIndex(index)
    ensures IntensityIndex(index + 136) == IntensityIndex(index)
  {
    assert (index + 136) % ColorCount == index % ColorCount;
    assert (index + 136) / ColorCount == index / ColorCount + 8;
  }

  lemma FirstScheme()
    ensures CalculateColorScheme(0) == BadgeColorScheme("bg-red-800", "text-red-100")
  {
    assert ColorIndex(0) == 13 && IntensityIndex(0) == 0;
    assert ColorName(13) == "red";
    SchemeSpelt(0);
  }

  /** The scheme an index picks, spelt with the literal level digits. */
  lemma SchemeSpelt(index: int)
    requires index >= 0
    ensures var c, t := ColorIndex(index), IntensityIndex(index);
      CalculateColorScheme(index) == BadgeColorScheme(
        "bg-" + BaseColors[c] + "-" + ["800", "700", "600", "500", "400", "300", "200", "100"][t],
        "text-" + BaseColors[c] + "-" + (if t >= 4 then "800" else "100"))
  {
    LevelTexts(IntensityIndex(index));
  }

  /**
   * Every scheme an index picks is listed in the safelist, at the
   * position of its intensity block and hue.
   */
  lemma {:induction false} SchemeInSafelist(index: int)
    requires index >= 0
    ensures var r := CalculateColorScheme(index);
      SafelistPosition(index) < |BadgeClassSafelist| && r.bg + " " + r.text == BadgeClassSafelist[SafelistPosition(index)]
  {
    var c, t := ColorIndex(index), IntensityIndex(index);
    SchemeSpelt(index);
    assert |BaseColors| == ColorCount;
    var color, level := BaseColors[c], ["800", "700", "600", "500", "400", "300", "200", "100"][t];
    var textLevel := if t >= 4 then "800" else "100";
    var r := CalculateColorScheme(index);
    assert r == BadgeColorScheme("bg-" + color + "-" + level, "text-" + color + "-" + textLevel);
    assert SafelistEntry(c, t) == ClassPair(color, level, textLevel);
    SafelistIsGrid(c, t);
    assert SafelistPosition(index) == t * ColorCount + c;
  }

  /** The text intensity is 800 when the background is at most 400, else 100. */
  lemma TextContrast(index: int)
    requires index >= 0
    ensures CalculateColorScheme(index).text
      == "text-" + ColorName(ColorIndex(index)) + "-" + (if IntensityLevels[IntensityIndex(index)] <= 400 then "800" else "100")
  {
    LevelTexts(IntensityIndex(index));
  }

  /** The index generator and the explicit one agree on every index. */
  lemma SchemeFromParts(index: int)
    requires index >= 0
    ensures CalculateColorScheme(index) == GetBadgeColorFrom(ColorName(ColorIndex(index)), IntensityLevels[IntensityIndex(index)])
  {
  }
}
