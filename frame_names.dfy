/** Configuration of the scroll animation, the number of frames it uses and the
    locator (asset path) it requests for each frame index: the pure part of
    initScrollAnimation in js/main.js. */
module FrameNames {

  datatype Option<T> = None | Some(value: T)

  /** The destructured options of initScrollAnimation. `specificFrames` is
      `None` for the default `null`; any list, even an empty one, is truthy in
      JavaScript and therefore selects explicit-list mode. The canvas and
      trigger identifiers only feed DOM lookups and are not part of this model. */
  datatype Config = Config(
    folder: string,
    extension: string,
    specificFrames: Option<seq<string>>,
    totalFrames: int)

  /** The defaults of the destructuring pattern. */
  const DefaultConfig := Config("animation", "webp", None, 240)

  // ---------------------------------------------------------------------
  // Frame count

  /** `specificFrames ? specificFrames.length : totalFrames` */
  function FrameCount(c: Config): int
  {
    match c.specificFrames
    case Some(frames) => |frames|
    case None => c.totalFrames
  }

  /** The number of iterations of the preload loop `for (i = 0; i < frameCount; i++)`:
      a negative count requests nothing. */
  function ImageCount(c: Config): (n: nat)
    ensures n == 0 <==> FrameCount(c) <= 0
    ensures FrameCount(c) >= 0 ==> n == FrameCount(c)
  {
    if FrameCount(c) < 0 then 0 else FrameCount(c)
  }

  /** A supplied list always decides the frame count, whatever `totalFrames` is;
      without a list the count is `totalFrames`, 240 by default. */
  lemma FrameCountSelection(c: Config, otherTotal: int)
    ensures c.specificFrames.Some? ==>
              FrameCount(c) == |c.specificFrames.value| &&
              FrameCount(c.(totalFrames := otherTotal)) == FrameCount(c)
    ensures c.specificFrames.None? ==> FrameCount(c) == c.totalFrames
    ensures FrameCount(DefaultConfig) == 240
  {
  }

  // ---------------------------------------------------------------------
  // Decimal digits: `Number.prototype.toString()` on a non-negative integer

  predicate IsDigit(ch: char) { '0' <= ch <= '9' }

  predicate AllDigits(s: string) { forall k :: 0 <= k < |s| ==> IsDigit(s[k]) }

  function DigitChar(d: nat): (ch: char)
    requires d < 10
    ensures IsDigit(ch) && ch as int - '0' as int == d
  {
    ('0' as int + d) as char
  }

  function DigitValue(ch: char): (d: nat)
    requires IsDigit(ch)
    ensures d < 10 && DigitChar(d) == ch
  {
    ch as int - '0' as int
  }

  /** The shortest decimal spelling of `n`. */
  function Decimal(n: nat): (s: string)
    ensures |s| >= 1 && AllDigits(s)
    ensures s[0] == '0' <==> n == 0
    ensures |s| == 1 <==> n < 10
  {
    if n < 10 then [DigitChar(n)] else Decimal(n / 10) + [DigitChar(n % 10)]
  }

  /** The number a string of decimal digits denotes (leading zeros allowed). */
  function ValueOf(s: string): nat
    requires AllDigits(s)
  {
    if s == [] then 0 else ValueOf(s[..|s| - 1]) * 10 + DigitValue(s[|s| - 1])
  }

  /** Reading back the decimal spelling of `n` gives `n`. */
  lemma {:induction false} DecimalRoundTrip(n: nat)
    ensures ValueOf(Decimal(n)) == n
  {
    if n >= 10 {
      var s := Decimal(n);
      assert s[..|s| - 1] == Decimal(n / 10);
      DecimalRoundTrip(n / 10);
    }
  }

  /** The decimal spelling has at most three digits exactly below 1000. */
  lemma {:induction false} DecimalWidth(n: nat)
    ensures |Decimal(n)| <= 3 <==> n < 1000
  {
    if n >= 10 {
      assert |Decimal(n)| == |Decimal(n / 10)| + 1;
      if n >= 100 {
        assert |Decimal(n / 10)| == |Decimal(n / 100)| + 1 by {
          assert (n / 10) / 10 == n / 100;
        }
      }
      if n >= 1000 {
        assert |Decimal(n / 100)| == |Decimal(n / 1000)| + 1 by {
          assert (n / 100) / 10 == n / 1000;
        }
      }
    }
  }

  // ---------------------------------------------------------------------
  // String.prototype.padStart with a one-character filler

  function Repeat(ch: char, count: nat): (s: string)
    ensures |s| == count && forall k :: 0 <= k < count ==> s[k] == ch
  {
    if count == 0 then [] else [ch] + Repeat(ch, count - 1)
  }

  /** `s.padStart(width, fill)`: fill on the left up to `width`; a string that
      is already long enough is returned whole, never truncated. */
  function PadStart(s: string, width: nat, fill: char): (r: string)
    ensures |r| == if |s| >= width then |s| else width
    ensures r[|r| - |s|..] == s
    ensures forall k :: 0 <= k < |r| - |s| ==> r[k] == fill
  {
    if |s| >= width then s else Repeat(fill, width - |s|) + s
  }

  /** Leading zeros do not change the number a digit string denotes. */
  lemma {:induction false} LeadingZerosValue(z: nat, s: string)
    requires AllDigits(s)
    ensures AllDigits(Repeat('0', z) + s)
    ensures ValueOf(Repeat('0', z) + s) == ValueOf(s)
    decreases |s|
  {
    var t := Repeat('0', z) + s;
    if s == [] {
      assert t == Repeat('0', z);
      ZerosValue(z);
    } else {
      assert t[..|t| - 1] == Repeat('0', z) + s[..|s| - 1];
      LeadingZerosValue(z, s[..|s| - 1]);
    }
  }

  lemma {:induction false} ZerosValue(z: nat)
    ensures ValueOf(Repeat('0', z)) == 0
  {
    if z > 0 {
      var t := Repeat('0', z);
      assert t[..z - 1] == Repeat('0', z - 1);
      ZerosValue(z - 1);
    }
  }

  /** `(n).toString().padStart(3, '0')` */
  function FrameNumber(n: nat): string
  {
    PadStart(Decimal(n), 3, '0')
  }

  /** The padded frame number is all digits, denotes `n`, is three characters
      below 1000 and keeps every digit from 1000 on. */
  lemma FrameNumberFacts(n: nat)
    ensures AllDigits(FrameNumber(n)) && ValueOf(FrameNumber(n)) == n
    ensures n < 1000 ==> |FrameNumber(n)| == 3
    ensures n >= 1000 ==> FrameNumber(n) == Decimal(n) && |FrameNumber(n)| > 3
  {
    var d := Decimal(n);
    DecimalRoundTrip(n);
    DecimalWidth(n);
    if |d| < 3 {
      LeadingZerosValue(3 - |d|, d);
    }
  }

  // ---------------------------------------------------------------------
  // Frame locators

  /** The part between the folder and the padded number in generated mode. */
  const GeneratedStem := "/ezgif-frame-"

  /** What comes before the padded number in generated mode. */
  function GeneratedPrefix(c: Config): string
  {
    c.folder + GeneratedStem
  }

  /** What comes after the padded number in generated mode. */
  function GeneratedSuffix(c: Config): string
  {
    "." + c.extension
  }

  /** `currentFrame(index)`. In explicit-list mode an index past the end of the
      list reads `undefined`, which the template literal spells out. */
  function CurrentFrame(c: Config, index: nat): string
  {
    match c.specificFrames
    case Some(frames) =>
      c.folder + "/" + (if index < |frames| then frames[index] else "undefined")
    case None =>
      GeneratedPrefix(c) + FrameNumber(index + 1) + GeneratedSuffix(c)
  }

  /** Recovers the frame index from a generated-mode locator of configuration
      `c`: strip the folder and stem, strip the extension, read the digits back. */
  function ParseGenerated(c: Config, loc: string): Option<nat>
  {
    var prefix := GeneratedPrefix(c);
    var suffix := GeneratedSuffix(c);
    if |loc| < |prefix| + |suffix| || loc[..|prefix|] != prefix || loc[|loc| - |suffix|..] != suffix
    then None
    else
      var digits := loc[|prefix|..|loc| - |suffix|];
      if digits != [] && AllDigits(digits) && ValueOf(digits) >= 1
      then Some(ValueOf(digits) - 1)
      else None
  }

  lemma {:induction false} JoinedSlices(prefix: string, middle: string, suffix: string)
    ensures var s := prefix + middle + suffix;
            |s| == |prefix| + |middle| + |suffix| &&
            s[..|prefix|] == prefix && s[|s| - |suffix|..] == suffix &&
            s[|prefix|..|s| - |suffix|] == middle
  {
    var s := prefix + middle + suffix;
    assert s[..|prefix|] == prefix;
    assert s[|s| - |suffix|..] == suffix;
    assert s[|prefix|..|s| - |suffix|] == middle;
  }

  /** The parser reads back any non-zero digit string placed between the
      prefix and the suffix. */
  lemma ParseJoined(c: Config, digits: string)
    requires AllDigits(digits) && ValueOf(digits) >= 1
    ensures ParseGenerated(c, GeneratedPrefix(c) + digits + GeneratedSuffix(c))
            == Some(ValueOf(digits) - 1)
  {
    JoinedSlices(GeneratedPrefix(c), digits, GeneratedSuffix(c));
  }

  /** Every generated-mode locator names the index it was made for. */
  lemma GeneratedLocatorRoundTrip(c: Config, index: nat)
    requires c.specificFrames.None?
    ensures ParseGenerated(c, CurrentFrame(c, index)) == Some(index)
  {
    FrameNumberFacts(index + 1);
    ParseJoined(c, FrameNumber(index + 1));
  }

  /** Generated mode gives every frame its own file. */
  lemma GeneratedLocatorsDistinct(c: Config, i: nat, j: nat)
    requires c.specificFrames.None?
    ensures CurrentFrame(c, i) == CurrentFrame(c, j) <==> i == j
  {
    GeneratedLocatorRoundTrip(c, i);
    GeneratedLocatorRoundTrip(c, j);
  }

  /** Explicit-list mode: the locator is the folder and the listed name, and the
      extension plays no part. */
  lemma ListLocator(c: Config, index: nat, otherExtension: string)
    requires c.specificFrames.Some? && index < |c.specificFrames.value|
    ensures CurrentFrame(c, index) == c.folder + "/" + c.specificFrames.value[index]
    ensures CurrentFrame(c.(extension := otherExtension), index) == CurrentFrame(c, index)
    ensures CurrentFrame(c, index)[|c.folder| + 1..] == c.specificFrames.value[index]
  {
  }

  /** Generated mode: the folder, `/ezgif-frame-`, the 1-based frame number
      padded to three digits, a dot and the extension. */
  lemma GeneratedLocator(c: Config, index: nat)
    requires c.specificFrames.None?
    ensures CurrentFrame(c, index) == c.folder + "/ezgif-frame-" + FrameNumber(index + 1) + "." + c.extension
  {
  }
}

/** Locators worked out: the default configuration, a two-name list, and the
    explicit list the page passes at js/main.js:217-245. */
module LocatorExamples {
  import opened FrameNames

  /** Padding at work: one digit gains two zeros, three digits none, and
      four digits are kept whole. */
  lemma PaddedExamples()
    ensures FrameNumber(1) == "001"
    ensures FrameNumber(240) == "240"
    ensures FrameNumber(1000) == "1000"
  {
    assert Decimal(1) == "1";
    assert Repeat('0', 2) == "00";
    assert Decimal(24) == Decimal(2) + [DigitChar(4)] == "24";
    assert Decimal(240) == Decimal(24) + [DigitChar(0)] == "240";
    assert Decimal(10) == Decimal(1) + [DigitChar(0)] == "10";
    assert Decimal(100) == Decimal(10) + [DigitChar(0)] == "100";
    assert Decimal(1000) == Decimal(100) + [DigitChar(0)] == "1000";
  }
  /** The default configuration (folder `animation`, extension `webp`, 240
      frames) locates frame `index` at `animation/ezgif-frame-NNN.webp`; with
      PaddedExamples, index 0 is `...-001.webp`, the last index 239 is
      `...-240.webp` and index 999 is `...-1000.webp`. */
  lemma DefaultLocator(index: nat)
    ensures ImageCount(DefaultConfig) == 240
    ensures CurrentFrame(DefaultConfig, index) == "animation/ezgif-frame-" + FrameNumber(index + 1) + ".webp"
  {
    assert GeneratedPrefix(DefaultConfig) == "animation/ezgif-frame-";
    assert GeneratedSuffix(DefaultConfig) == ".webp";
  }

  /** A two-name list in the page's folder: an index past the list reads
      `undefined`. */
  lemma ListLocatorExample()
    ensures CurrentFrame(Config("old_animation", "webp", Some(["a.png", "b.png"]), 240), 1)
            == "old_animation/b.png"
    ensures CurrentFrame(Config("old_animation", "webp", Some(["a.png", "b.png"]), 240), 2)
            == "old_animation/undefined"
  {
  }

  /** The page's list of frame names, in three parts. */
  const PageFramesEarly: seq<string> := [
      "ezgif-frame-006.png", "ezgif-frame-007.png", "ezgif-frame-012.png",
      "ezgif-frame-013.png", "ezgif-frame-014.png", "ezgif-frame-015.png",
      "ezgif-frame-016.png", "ezgif-frame-024.png", "ezgif-frame-025.png",
      "ezgif-frame-031.png", "ezgif-frame-034.png", "ezgif-frame-035.png",
      "ezgif-frame-039.png", "ezgif-frame-040.png", "ezgif-frame-041.png",
      "ezgif-frame-042.png", "ezgif-frame-043.png", "ezgif-frame-044.png",
      "ezgif-frame-046.png", "ezgif-frame-047.png", "ezgif-frame-048.png",
      "ezgif-frame-049.png", "ezgif-frame-050.png", "ezgif-frame-051.png",
      "ezgif-frame-052.png", "ezgif-frame-053.png", "ezgif-frame-054.png",
      "ezgif-frame-055.png", "ezgif-frame-056.png", "ezgif-frame-057.png"
    ]

  const PageFramesMiddle: seq<string> := [
      "ezgif-frame-058.png", "ezgif-frame-059.png", "ezgif-frame-060.png",
      "ezgif-frame-061.png", "ezgif-frame-062.png", "ezgif-frame-063.png",
      "ezgif-frame-064.png", "ezgif-frame-065.png", "ezgif-frame-066.png",
      "ezgif-frame-067.png", "ezgif-frame-072.png", "ezgif-frame-073.png",
      "ezgif-frame-074.png", "ezgif-frame-075.png", "ezgif-frame-076.png",
      "ezgif-frame-077.png", "ezgif-frame-078.png", "ezgif-frame-079.png",
      "ezgif-frame-080.png", "ezgif-frame-093.png", "ezgif-frame-094.png",
      "ezgif-frame-095.png", "ezgif-frame-096.png", "ezgif-frame-097.png",
      "ezgif-frame-098.png", "ezgif-frame-099.png", "ezgif-frame-100.png",
      "ezgif-frame-101.png", "ezgif-frame-102.png", "ezgif-frame-103.png"
    ]

  const PageFramesLate: seq<string> := [
      "ezgif-frame-104.png", "ezgif-frame-105.png", "ezgif-frame-106.png",
      "ezgif-frame-107.png", "ezgif-frame-108.png", "ezgif-frame-109.png",
      "ezgif-frame-110.png", "ezgif-frame-111.png", "ezgif-frame-112.png",
      "ezgif-frame-113.png", "ezgif-frame-114.png", "ezgif-frame-115.png",
      "ezgif-frame-116.png", "ezgif-frame-117.png", "ezgif-frame-118.png",
      "ezgif-frame-119.png", "ezgif-frame-120.png", "ezgif-frame-121.png",
      "ezgif-frame-122.png", "ezgif-frame-123.png", "ezgif-frame-124.png",
      "ezgif-frame-125.png", "ezgif-frame-126.png", "ezgif-frame-127.png",
      "ezgif-frame-128.png", "ezgif-frame-129.png", "ezgif-frame-130.png",
      "ezgif-frame-131.png", "ezgif-frame-132.png"
    ]

  /** The options of the page's one call: folder `old_animation`, the default
      extension and `totalFrames`, and an explicit list of 89 PNG names. */
  const PageConfig := Config("old_animation", "webp", Some(PageFramesEarly + PageFramesMiddle + PageFramesLate), 240)

  /** The page's list decides 89 frames; the first is frame 006, the last
      frame 132, and the next index reads `undefined`. */
  lemma PageLocators()
    ensures ImageCount(PageConfig) == 89
    ensures CurrentFrame(PageConfig, 0) == "old_animation/ezgif-frame-006.png"
    ensures CurrentFrame(PageConfig, 88) == "old_animation/ezgif-frame-132.png"
    ensures CurrentFrame(PageConfig, 89) == "old_animation/undefined"
  {
    var frames := PageFramesEarly + PageFramesMiddle + PageFramesLate;
    assert frames[0] == PageFramesEarly[0] == "ezgif-frame-006.png";
    assert frames[88] == PageFramesLate[28] == "ezgif-frame-132.png";
  }
}
