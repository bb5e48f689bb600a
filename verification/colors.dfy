/** Chart colours (app/colors.py): hex parsing and formatting with clamping,
    classification of plan names into apps, and one shade of the app's base
    colour per plan. */
module Colors {
  import opened Common
  import opened Ordering
  import opened Config

  // ---------------------------------------------------------------------
  // Hex digits
  // ---------------------------------------------------------------------

  predicate IsHexDigit(c: char)
  {
    '0' <= c <= '9' || 'a' <= c <= 'f' || 'A' <= c <= 'F'
  }

  predicate IsLowerHexDigit(c: char)
  {
    '0' <= c <= '9' || 'a' <= c <= 'f'
  }

  function HexVal(c: char): (v: int)
    requires IsHexDigit(c)
    ensures 0 <= v < 16
  {
    if '0' <= c <= '9' then c as int - '0' as int
    else if 'a' <= c <= 'f' then c as int - 'a' as int + 10
    else c as int - 'A' as int + 10
  }

  /** The lower-case digit `{:x}` prints for `v`. */
  function Digit(v: int): (c: char)
    requires 0 <= v < 16
    ensures IsLowerHexDigit(c) && HexVal(c) == v
  {
    if v < 10 then ('0' as int + v) as char else ('a' as int + v - 10) as char
  }

  lemma DigitOfHexVal(c: char)
    requires IsLowerHexDigit(c)
    ensures Digit(HexVal(c)) == c
  {
  }

  /** The value of a non-empty all-hex-digit string. */
  function HexValue(s: string): (v: int)
    requires forall i :: 0 <= i < |s| ==> IsHexDigit(s[i])
    ensures v >= 0
  {
    if |s| == 0 then 0 else 16 * HexValue(s[..|s| - 1]) + HexVal(s[|s| - 1])
  }

  /** `int(s, 16)` for plain digit strings: the empty string and any
      non-digit character are errors. */
  function ParseHex(s: string): (r: Option<int>)
    ensures r.Some? <==> |s| > 0 && forall i :: 0 <= i < |s| ==> IsHexDigit(s[i])
    ensures r.Some? && |s| <= 2 ==> 0 <= r.value <= 255
  {
    if |s| > 0 && forall i :: 0 <= i < |s| ==> IsHexDigit(s[i]) then
      if |s| <= 2 then HexValueShort(s); Some(HexValue(s))
      else Some(HexValue(s))
    else None
  }

  /** The value of one or two digits. */
  lemma HexValueShort(s: string)
    requires 1 <= |s| <= 2 && forall i :: 0 <= i < |s| ==> IsHexDigit(s[i])
    ensures |s| == 1 ==> HexValue(s) == HexVal(s[0])
    ensures |s| == 2 ==> HexValue(s) == 16 * HexVal(s[0]) + HexVal(s[1])
    ensures HexValue(s) <= 255
  {
    var init := s[..|s| - 1];
    if |s| == 2 {
      assert init == [s[0]];
      assert init[..0] == [];
      assert HexValue(init) == HexVal(s[0]);
    } else {
      assert init == [];
    }
  }

  /** `'{:02x}'.format(v)` for 0 <= v <= 255. */
  function Hex2(v: int): (s: string)
    requires 0 <= v <= 255
    ensures |s| == 2 && IsLowerHexDigit(s[0]) && IsLowerHexDigit(s[1])
  {
    [Digit(v / 16), Digit(v % 16)]
  }

  lemma ParseHex2(v: int)
    requires 0 <= v <= 255
    ensures ParseHex(Hex2(v)) == Some(v)
  {
    var s := Hex2(v);
    HexValueShort(s);
  }

  lemma Hex2OfParse(s: string)
    requires |s| == 2 && IsLowerHexDigit(s[0]) && IsLowerHexDigit(s[1])
    ensures ParseHex(s).Some? && Hex2(ParseHex(s).value) == s
  {
    HexValueShort(s);
    var v := HexValue(s);
    assert v / 16 == HexVal(s[0]) && v % 16 == HexVal(s[1]);
    DigitOfHexVal(s[0]);
    DigitOfHexVal(s[1]);
  }

  // ---------------------------------------------------------------------
  // Colours
  // ---------------------------------------------------------------------

  datatype Rgb = Rgb(r: int, g: int, b: int)

  /** A `#rrggbb` string in either case. */
  predicate WellFormedHex(s: string)
  {
    && |s| == 7 && s[0] == '#'
    && IsHexDigit(s[1]) && IsHexDigit(s[2]) && IsHexDigit(s[3])
    && IsHexDigit(s[4]) && IsHexDigit(s[5]) && IsHexDigit(s[6])
  }

  /** What `rgb_to_hex` produces: `#` and six lower-case digits. */
  predicate LowerHex(s: string)
  {
    && |s| == 7 && s[0] == '#'
    && IsLowerHexDigit(s[1]) && IsLowerHexDigit(s[2]) && IsLowerHexDigit(s[3])
    && IsLowerHexDigit(s[4]) && IsLowerHexDigit(s[5]) && IsLowerHexDigit(s[6])
  }

  /** `s.lstrip('#')`. */
  function LStripHash(s: string): (r: string)
    ensures |r| <= |s| && (|r| > 0 ==> r[0] != '#')
  {
    if |s| > 0 && s[0] == '#' then LStripHash(s[1..]) else s
  }

  /** Only leading '#'s are removed: the result is a suffix of the input,
      preceded by '#'s alone. */
  lemma {:induction false} LStripHashSuffix(s: string)
    ensures var r := LStripHash(s);
            r == s[|s| - |r|..] && forall i :: 0 <= i < |s| - |r| ==> s[i] == '#'
    decreases |s|
  {
    if |s| > 0 && s[0] == '#' {
      LStripHashSuffix(s[1..]);
      var r := LStripHash(s);
      assert forall i :: 1 <= i < |s| - |r| ==> s[i] == s[1..][i - 1];
    }
  }

  /** `hex_to_rgb`: the pairs of digits at offsets 0, 2 and 4 after the
      leading '#'s; None where Python's `int(…, 16)` raises. */
  function HexToRgb(hex: string): (c: Option<Rgb>)
    ensures c.Some? ==> 0 <= c.value.r <= 255 && 0 <= c.value.g <= 255 && 0 <= c.value.b <= 255
    ensures WellFormedHex(hex) ==> c.Some?
  {
    var h := LStripHash(hex);
    var r := ParseHex(PySlice(h, 0, 2));
    var g := ParseHex(PySlice(h, 2, 4));
    var b := ParseHex(PySlice(h, 4, 6));
    assert WellFormedHex(hex) ==> r.Some? && g.Some? && b.Some? by {
      if WellFormedHex(hex) {
        SplitHex(hex);
      }
    }
    if r.Some? && g.Some? && b.Some? then Some(Rgb(r.value, g.value, b.value)) else None
  }

  /** The three digit pairs of a `#` followed by six characters, the first
      of which is not a `#`. */
  lemma SplitHex(s: string)
    requires |s| == 7 && s[0] == '#' && s[1] != '#'
    ensures LStripHash(s) == s[1..]
    ensures PySlice(s[1..], 0, 2) == s[1..3]
    ensures PySlice(s[1..], 2, 4) == s[3..5]
    ensures PySlice(s[1..], 4, 6) == s[5..7]
  {
    StripOneHash(s);
    TailSlice(s, 0, 2);
    TailSlice(s, 2, 4);
    TailSlice(s, 4, 6);
  }

  /** Slicing the tail is slicing the whole one position later. */
  lemma TailSlice(s: string, i: nat, j: nat)
    requires |s| >= 1 && i <= j <= |s| - 1
    ensures PySlice(s[1..], i, j) == s[i + 1..j + 1]
  {
    assert s[1..][i..j] == s[i + 1..j + 1];
  }

  /** A single leading '#' is stripped and nothing more. */
  lemma StripOneHash(s: string)
    requires |s| >= 2 && s[0] == '#' && s[1] != '#'
    ensures LStripHash(s) == s[1..]
  {
    assert s[1..][0] != '#';
    assert LStripHash(s[1..]) == s[1..];
  }

  /** Python's `int(x)` on a float: truncation toward zero. */
  function Trunc(x: real): (n: int)
    ensures x >= 0.0 ==> n as real <= x < n as real + 1.0
    ensures x < 0.0 ==> n as real - 1.0 < x <= n as real
  {
    if x >= 0.0 then x.Floor else -((-x).Floor)
  }

  /** `max(0, min(255, int(x)))`. */
  function Channel(x: real): (n: int)
    ensures 0 <= n <= 255
    ensures 0.0 <= x < 256.0 ==> n == x.Floor
  {
    var t := Trunc(x);
    if t > 255 then 255 else if t < 0 then 0 else t
  }

  /** `rgb_to_hex`: each channel truncated and clamped, then two lower-case
      digits each. */
  function RgbToHex(r: real, g: real, b: real): (s: string)
    ensures LowerHex(s)
    ensures HexToRgb(s) == Some(Rgb(Channel(r), Channel(g), Channel(b)))
  {
    var x, y, z := Hex2(Channel(r)), Hex2(Channel(g)), Hex2(Channel(b));
    var s := "#" + x + y + z;
    ParseHex2(Channel(r));
    ParseHex2(Channel(g));
    ParseHex2(Channel(b));
    assert s[1..3] == x && s[3..5] == y && s[5..7] == z;
    SplitHex(s);
    s
  }

  /** In-range channels survive formatting and parsing unchanged. */
  lemma RgbRoundTrip(c: Rgb)
    requires 0 <= c.r <= 255 && 0 <= c.g <= 255 && 0 <= c.b <= 255
    ensures HexToRgb(RgbToHex(c.r as real, c.g as real, c.b as real)) == Some(c)
  {
  }

  /** A lower-case `#rrggbb` string survives parsing and formatting. */
  lemma HexRoundTrip(s: string)
    requires LowerHex(s)
    ensures HexToRgb(s).Some?
    ensures var c := HexToRgb(s).value; RgbToHex(c.r as real, c.g as real, c.b as real) == s
  {
    SplitHex(s);
    var c := HexToRgb(s).value;
    Hex2OfParse(s[1..3]);
    Hex2OfParse(s[3..5]);
    Hex2OfParse(s[5..7]);
    assert Channel(c.r as real) == c.r && Channel(c.g as real) == c.g && Channel(c.b as real) == c.b;
    assert s == "#" + s[1..3] + s[3..5] + s[5..7];
  }

  /** The product of a channel amount and a factor. */
  function Scale(a: real, f: real): real
  {
    a * f
  }

  /** One channel moved toward 255 by `factor`. */
  function Lightened(c: int, factor: real): real
  {
    c as real + Scale(255.0 - c as real, factor)
  }

  /** One channel scaled by `1 - factor`. */
  function Darkened(c: int, factor: real): real
  {
    Scale(c as real, 1.0 - factor)
  }

  /** `lighten_color`: each channel moves toward 255 by `factor`. */
  function Lighten(hex: string, factor: real): (r: Option<string>)
    ensures r.Some? <==> HexToRgb(hex).Some?
    ensures r.Some? ==> LowerHex(r.value)
  {
    match HexToRgb(hex)
    case None => None
    case Some(c) =>
      Some(RgbToHex(Lightened(c.r, factor), Lightened(c.g, factor), Lightened(c.b, factor)))
  }

  /** `darken_color`: each channel is scaled by `1 - factor`. */
  function Darken(hex: string, factor: real): (r: Option<string>)
    ensures r.Some? <==> HexToRgb(hex).Some?
    ensures r.Some? ==> LowerHex(r.value)
  {
    match HexToRgb(hex)
    case None => None
    case Some(c) =>
      Some(RgbToHex(Darkened(c.r, factor), Darkened(c.g, factor), Darkened(c.b, factor)))
  }

  /** Scaling by a factor in [0, 1] stays between 0 and the value. */
  lemma ScaledBetween(a: real, f: real)
    requires 0.0 <= a && 0.0 <= f <= 1.0
    ensures 0.0 <= Scale(a, f) <= a
  {
    assert a * f + a * (1.0 - f) == a;
    assert a * (1.0 - f) >= 0.0;
  }

  /** A value between two channel values keeps its channel between them. */
  lemma ChannelBetween(x: real, lo: int, hi: int)
    requires 0 <= lo <= hi <= 255 && lo as real <= x <= hi as real
    ensures lo <= Channel(x) <= hi
  {
    assert Channel(x) == x.Floor;
  }

  lemma LightenChannel(c: int, factor: real)
    requires 0 <= c <= 255 && 0.0 <= factor <= 1.0
    ensures c <= Channel(Lightened(c, factor)) <= 255
  {
    ScaledBetween(255.0 - c as real, factor);
    assert c as real <= Lightened(c, factor) <= 255.0;
    ChannelBetween(Lightened(c, factor), c, 255);
  }

  lemma DarkenChannel(c: int, factor: real)
    requires 0 <= c <= 255 && 0.0 <= factor <= 1.0
    ensures 0 <= Channel(Darkened(c, factor)) <= c
  {
    ScaledBetween(c as real, 1.0 - factor);
    assert 0.0 <= Darkened(c, factor) <= c as real;
    ChannelBetween(Darkened(c, factor), 0, c);
  }

  /** For a factor in [0, 1], lightening never lowers a channel. */
  lemma LightenNeverDarker(hex: string, factor: real)
    requires HexToRgb(hex).Some? && 0.0 <= factor <= 1.0
    ensures var c := HexToRgb(hex).value;
            var l := HexToRgb(Lighten(hex, factor).value).value;
            c.r <= l.r && c.g <= l.g && c.b <= l.b
  {
    var c := HexToRgb(hex).value;
    assert Lighten(hex, factor) == Some(RgbToHex(Lightened(c.r, factor), Lightened(c.g, factor), Lightened(c.b, factor)));
    LightenChannel(c.r, factor);
    LightenChannel(c.g, factor);
    LightenChannel(c.b, factor);
  }

  /** For a factor in [0, 1], darkening never raises a channel. */
  lemma DarkenNeverLighter(hex: string, factor: real)
    requires HexToRgb(hex).Some? && 0.0 <= factor <= 1.0
    ensures var c := HexToRgb(hex).value;
            var d := HexToRgb(Darken(hex, factor).value).value;
            d.r <= c.r && d.g <= c.g && d.b <= c.b
  {
    var c := HexToRgb(hex).value;
    assert Darken(hex, factor) == Some(RgbToHex(Darkened(c.r, factor), Darkened(c.g, factor), Darkened(c.b, factor)));
    DarkenChannel(c.r, factor);
    DarkenChannel(c.g, factor);
    DarkenChannel(c.b, factor);
  }

  // ---------------------------------------------------------------------
  // Plans to apps
  // ---------------------------------------------------------------------

  /** `get_app_from_plan`. The CT tests look at the upper-cased name; the
      final CT fallback is a case-sensitive prefix test. */
  function AppFromPlan(plan: Option<string>): (app: string)
    ensures plan.None? ==> app == "Unknown"
    ensures app == "Unknown" || app in APP_COLORS
    ensures plan.Some? && Contains(Upper(plan.value), "CT")
            && (Contains(Upper(plan.value), "NON-JP") || Contains(Upper(plan.value), "NONJP"))
            ==> app == "CT-Non-JP"
    ensures plan.Some? && Contains(Upper(plan.value), "CT") && Contains(Upper(plan.value), "JP")
            && !Contains(Upper(plan.value), "NON")
            ==> app == "CT-JP"
    ensures plan.Some? && !Contains(Upper(plan.value), "CT") ==> app != "CT-JP" && app != "CT-Non-JP"
  {
    if plan.None? then "Unknown"
    else
      var name := plan.value;
      var upper := Upper(name);
      NonMarkers(upper);
      if Contains(upper, "CT") && (Contains(upper, "NON-JP") || Contains(upper, "NONJP")) then "CT-Non-JP"
      else if Contains(upper, "CT") && Contains(upper, "JP") && !Contains(upper, "NON") then "CT-JP"
      else if Contains(upper, "CT") && StartsWith(name, "CT") then "CT-Non-JP"
      else if |name| >= 2 && Upper(name[..2]) in APP_COLORS then Upper(name[..2])
      else "Unknown"
  }

  /** The two-letter rule: the upper-cased first two characters when they
      name an app in the palette, else "Unknown". */
  function PrefixApp(name: string): (app: string)
    ensures app == "Unknown" || (|name| >= 2 && app == Upper(name[..2]) && app in APP_COLORS)
    ensures |name| >= 2 && Upper(name[..2]) in APP_COLORS ==> app != "Unknown"
  {
    if |name| >= 2 && Upper(name[..2]) in APP_COLORS then Upper(name[..2]) else "Unknown"
  }

  /** The names that fall through the CT tests: without "CT" the two-letter
      rule decides; with "CT" but neither Japanese test passing, a name
      starting with "CT" is non-Japanese CT and any other falls back to the
      two-letter rule. */
  lemma AppFromPlanPrefixRule(name: string)
    ensures !Contains(Upper(name), "CT") ==> AppFromPlan(Some(name)) == PrefixApp(name)
    ensures Contains(Upper(name), "CT")
            && !Contains(Upper(name), "NON-JP") && !Contains(Upper(name), "NONJP")
            && !(Contains(Upper(name), "JP") && !Contains(Upper(name), "NON"))
            ==> AppFromPlan(Some(name)) == if StartsWith(name, "CT") then "CT-Non-JP" else PrefixApp(name)
  {
  }

  /** Prefix-coded names: "JF2788ST" is a JF plan, "zz1" names no app. */
  lemma PrefixExamples()
    ensures AppFromPlan(Some("JF2788ST")) == "JF"
    ensures AppFromPlan(Some("zz1")) == "Unknown"
  {
    assert Upper("JF2788ST") == "JF2788ST";
    AbsentFirstChar("JF2788ST", "CT");
    assert "JF2788ST"[..2] == "JF" && Upper("JF") == "JF";
    assert Upper("zz1") == "ZZ1";
    AbsentFirstChar("ZZ1", "CT");
    assert "zz1"[..2] == "zz" && Upper("zz") == "ZZ";
  }

  /** CT names: a lower-case Japanese CT plan and one with no marker. */
  lemma CtExamples()
    ensures AppFromPlan(Some("ctjp1")) == "CT-JP"
    ensures AppFromPlan(Some("CT_base")) == "CT-Non-JP"
  {
    assert Upper("ctjp1") == "CTJP1";
    assert OccursAt("CTJP1", "CT", 0) && OccursAt("CTJP1", "JP", 2);
    AbsentFirstChar("CTJP1", "NON");
    AbsentFirstChar("CTJP1", "NON-JP");
    AbsentFirstChar("CTJP1", "NONJP");
    assert Upper("CT_base") == "CT_BASE";
    assert OccursAt("CT_BASE", "CT", 0);
    AbsentFirstChar("CT_BASE", "JP");
    AbsentFirstChar("CT_BASE", "NON-JP");
    AbsentFirstChar("CT_BASE", "NONJP");
    assert StartsWith("CT_base", "CT");
  }

  /** A string without the first character of `sub` does not contain it. */
  lemma AbsentFirstChar(s: string, sub: string)
    requires |sub| > 0 && sub[0] !in s
    ensures !Contains(s, sub)
  {
    forall i | 0 <= i <= |s| - |sub| ensures s[i] != sub[0] {
      assert s[i] in s;
    }
  }

  /** Both "not Japanese" markers contain "NON". */
  lemma NonMarkers(s: string)
    ensures Contains(s, "NON-JP") ==> Contains(s, "NON")
    ensures Contains(s, "NONJP") ==> Contains(s, "NON")
  {
    if Contains(s, "NON-JP") {
      var i :| 0 <= i <= |s| - 6 && OccursAt(s, "NON-JP", i);
      assert s[i..i + 3] == s[i..i + 6][..3];
      assert OccursAt(s, "NON", i);
    }
    if Contains(s, "NONJP") {
      var i :| 0 <= i <= |s| - 5 && OccursAt(s, "NONJP", i);
      assert s[i..i + 3] == s[i..i + 5][..3];
      assert OccursAt(s, "NON", i);
    }
  }

  /** A name that starts with "CT" (upper case) always lands in a CT app. */
  lemma CtPrefixIsCtApp(name: string)
    requires StartsWith(name, "CT")
    ensures AppFromPlan(Some(name)) in {"CT-Non-JP", "CT-JP"}
  {
    assert Upper(name)[..2] == "CT";
    assert OccursAt(Upper(name), "CT", 0);
  }

  /** The two-letter prefix "CT" is not itself an app: a lower-case "ct"
      name without a JP marker is "Unknown". */
  lemma CtIsNotAnApp()
    ensures "CT" !in APP_COLORS
  {
  }

  // ---------------------------------------------------------------------
  // Shades
  // ---------------------------------------------------------------------

  /** Colour for an app outside the palette. */
  const FALLBACK_COLOR: string := "#6B7280"

  const SHADE_PATTERN: seq<real> := [0.0, 0.15, -0.15, 0.30, -0.30, 0.45, -0.45, 0.20, -0.20, 0.35]

  function BaseColor(app: string): (c: string)
    ensures WellFormedHex(c)
  {
    if app in APP_COLORS then APP_COLORS[app] else FALLBACK_COLOR
  }

  /** `get_plan_color`: the app's base colour, lightened or darkened by the
      pattern entry at `idx mod 10`. */
  function PlanColor(plan: Option<string>, idx: nat): (c: string)
    ensures WellFormedHex(c)
    ensures idx % 10 == 0 ==> c == BaseColor(AppFromPlan(plan))
    ensures idx % 10 != 0 ==> LowerHex(c)
  {
    var base := BaseColor(AppFromPlan(plan));
    var shade := SHADE_PATTERN[idx % |SHADE_PATTERN|];
    if shade > 0.0 then Lighten(base, shade).value
    else if shade < 0.0 then Darken(base, -shade).value
    else base
  }

  /** The shade depends on the index only modulo 10. */
  lemma PlanColorPeriodic(plan: Option<string>, idx: nat)
    ensures PlanColor(plan, idx + 10) == PlanColor(plan, idx)
  {
    assert (idx + 10) % 10 == idx % 10;
  }

  /** Odd positions of the pattern lighten the base colour, channel by
      channel. */
  lemma OddShadeIsLighter(plan: Option<string>, idx: nat)
    requires idx % 2 == 1
    ensures HexToRgb(PlanColor(plan, idx)).Some? && HexToRgb(BaseColor(AppFromPlan(plan))).Some?
    ensures var c := HexToRgb(PlanColor(plan, idx)).value;
            var base := HexToRgb(BaseColor(AppFromPlan(plan))).value;
            base.r <= c.r && base.g <= c.g && base.b <= c.b
  {
    PatternSigns(idx);
    LightenNeverDarker(BaseColor(AppFromPlan(plan)), SHADE_PATTERN[idx % 10]);
  }

  /** Even non-zero positions of the pattern darken the base colour, channel
      by channel. */
  lemma EvenShadeIsDarker(plan: Option<string>, idx: nat)
    requires idx % 2 == 0 && idx % 10 != 0
    ensures HexToRgb(PlanColor(plan, idx)).Some? && HexToRgb(BaseColor(AppFromPlan(plan))).Some?
    ensures var c := HexToRgb(PlanColor(plan, idx)).value;
            var base := HexToRgb(BaseColor(AppFromPlan(plan))).value;
            c.r <= base.r && c.g <= base.g && c.b <= base.b
  {
    PatternSigns(idx);
    DarkenNeverLighter(BaseColor(AppFromPlan(plan)), -SHADE_PATTERN[idx % 10]);
  }

  /** The pattern is positive at odd indices and negative at even non-zero
      ones, and never leaves [-1, 1]. */
  lemma PatternSigns(idx: nat)
    ensures -1.0 <= SHADE_PATTERN[idx % 10] <= 1.0
    ensures idx % 2 == 1 ==> SHADE_PATTERN[idx % 10] > 0.0
    ensures idx % 2 == 0 && idx % 10 != 0 ==> SHADE_PATTERN[idx % 10] < 0.0
  {
    var i := idx % 10;
    assert idx % 2 == i % 2;
    assert i == 0 || i == 1 || i == 2 || i == 3 || i == 4 || i == 5 || i == 6 || i == 7 || i == 8 || i == 9;
  }

  // ---------------------------------------------------------------------
  // Colour maps
  // ---------------------------------------------------------------------

  function AppOf(plan: string): string
  {
    AppFromPlan(Some(plan))
  }

  /** `app_plans[app]` before sorting: that app's plans in input order. */
  function PlansOf(plans: seq<string>, app: string): (g: seq<string>)
    ensures forall p :: p in g <==> p in plans && AppOf(p) == app
  {
    if |plans| == 0 then []
    else
      assert forall p :: p in plans <==> p == plans[0] || p in plans[1..];
      (if AppOf(plans[0]) == app then [plans[0]] else []) + PlansOf(plans[1..], app)
  }

  /** `app_plans[app]` after `.sort()`: duplicates kept. */
  function SortedGroup(plans: seq<string>, app: string): (g: seq<string>)
    ensures Sorted(g, StrLt)
    ensures multiset(g) == multiset(PlansOf(plans, app))
    ensures forall p :: p in g <==> p in plans && AppOf(p) == app
  {
    StrLtIsStrictTotal();
    var g := Sort(PlansOf(plans, app), StrLt);
    assert forall p :: p in g <==> p in multiset(g);
    g
  }

  /** The position of the last occurrence of `k`. */
  function LastIndex(s: seq<string>, k: string): (i: nat)
    requires k in s
    ensures i < |s| && s[i] == k
    ensures forall j :: i < j < |s| ==> s[j] != k
  {
    if s[|s| - 1] == k then |s| - 1
    else
      assert k in s[..|s| - 1] by {
        var j :| 0 <= j < |s| && s[j] == k;
        assert s[..|s| - 1][j] == k;
      }
      LastIndex(s[..|s| - 1], k)
  }

  /** The inner loop of `build_plan_color_map` over one sorted group, as
      shade indices: a plan is written at each of its positions, so it ends
      with its last one. */
  function IndexGroup(m: map<string, nat>, group: seq<string>): (r: map<string, nat>)
    ensures forall k :: k in r <==> k in m || k in group
    ensures forall k :: k in group ==> r[k] == LastIndex(group, k)
    ensures forall k :: k in m && k !in group ==> r[k] == m[k]
  {
    if |group| == 0 then m
    else
      var init := group[..|group| - 1];
      var last := group[|group| - 1];
      assert forall k :: k in group <==> k in init || k == last;
      IndexGroup(m, init)[last := |group| - 1]
  }

  /** The outer loop over the apps, in order. */
  function IndexApps(apps: seq<string>, plans: seq<string>): (m: map<string, nat>)
    ensures forall k :: k in m <==> k in plans && AppOf(k) in apps
    ensures forall k :: k in m ==> m[k] == LastIndex(SortedGroup(plans, AppOf(k)), k)
  {
    if |apps| == 0 then map[]
    else
      var init := apps[..|apps| - 1];
      var last := apps[|apps| - 1];
      assert forall a :: a in apps <==> a in init || a == last;
      IndexGroup(IndexApps(init, plans), SortedGroup(plans, last))
  }

  /** The apps of the plans, in first-occurrence order (the dict's keys). */
  function AppsOf(plans: seq<string>): (apps: seq<string>)
    ensures forall p :: p in plans ==> AppOf(p) in apps
  {
    var all := seq(|plans|, i requires 0 <= i < |plans| => AppOf(plans[i]));
    assert forall i :: 0 <= i < |plans| ==> all[i] == AppOf(plans[i]);
    Dedup(all)
  }

  /** The shade index each plan ends with: its last position in its app's
      sorted group. */
  function ShadeIndices(plans: seq<string>): (m: map<string, nat>)
    ensures forall k :: k in m <==> k in plans
    ensures forall k :: k in m ==> m[k] == LastIndex(SortedGroup(plans, AppOf(k)), k)
  {
    IndexApps(AppsOf(plans), plans)
  }

  /** `build_plan_color_map`: every plan gets a well-formed colour, and
      nothing else does. */
  function BuildPlanColorMap(plans: seq<string>): (m: map<string, string>)
    ensures forall k :: k in m <==> k in plans
    ensures forall k :: k in m ==> m[k] == PlanColor(Some(k), ShadeIndices(plans)[k])
    ensures forall k :: k in m ==> WellFormedHex(m[k])
  {
    var idx := ShadeIndices(plans);
    map k | k in idx :: PlanColor(Some(k), idx[k])
  }

  /** `get_chart_colors`: one colour per plan, in input order, taken from
      the colour map (the fallback is never needed). */
  function ChartColors(plans: seq<string>): (colors: seq<string>)
    ensures |colors| == |plans|
    ensures forall i :: 0 <= i < |plans| ==> plans[i] in BuildPlanColorMap(plans)
    ensures forall i :: 0 <= i < |plans| ==> colors[i] == BuildPlanColorMap(plans)[plans[i]]
  {
    var m := BuildPlanColorMap(plans);
    seq(|plans|, i requires 0 <= i < |plans| => if plans[i] in m then m[plans[i]] else FALLBACK_COLOR)
  }

  /** A value occurring at two positions is counted at least twice. */
  lemma TwoOccurrences(s: seq<string>, i: int, j: int)
    requires 0 <= i < j < |s| && s[i] == s[j]
    ensures multiset(s)[s[i]] >= 2
  {
    assert s == s[..j] + s[j..];
    assert s[i] in s[..j];
    assert s[j..][0] == s[j];
  }

  /** A group holds each plan of its app as often as the input does. */
  lemma {:induction false} GroupCount(plans: seq<string>, app: string, k: string)
    requires AppOf(k) == app
    ensures multiset(PlansOf(plans, app))[k] == multiset(plans)[k]
    decreases |plans|
  {
    if |plans| > 0 {
      GroupCount(plans[1..], app, k);
      assert plans == [plans[0]] + plans[1..];
    }
  }

  /** The alphabetically first plan of an app, occurring once, gets shade
      index 0 and so the app's base colour. */
  lemma FirstPlanGetsBaseColor(plans: seq<string>, k: string)
    requires k in plans && multiset(plans)[k] == 1
    requires forall p :: p in plans && AppOf(p) == AppOf(k) && p != k ==> StrLt(k, p)
    ensures k in BuildPlanColorMap(plans)
    ensures ShadeIndices(plans)[k] == 0
    ensures BuildPlanColorMap(plans)[k] == BaseColor(AppOf(k))
  {
    var g := SortedGroup(plans, AppOf(k));
    var i := LastIndex(g, k);
    GroupCount(plans, AppOf(k), k);
    assert multiset(g)[k] == 1;
    if i > 0 {
      assert g[0] in plans && AppOf(g[0]) == AppOf(k);
      assert !StrLt(g[i], g[0]);
      if g[0] == k {
        TwoOccurrences(g, 0, i);
      }
      assert false;
    }
  }
}
