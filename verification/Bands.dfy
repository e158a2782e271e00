/** Splitting ranked countries into bands, and the temperature of each. */
module Bands {
  import opened Sorting

  // --------------------------------------------------------------- band sizes

  datatype Sizes = Sizes(first: nat, second: nat, third: nat, fourth: nat) {
    function Sum(): nat { first + second + third + fourth }
  }

  /** A fifth and three tenths of `n`, rounded half up. */
  function Fifth(n: nat): nat { (2 * n + 5) / 10 }

  function ThreeTenths(n: nat): nat { (3 * n + 5) / 10 }

  /** The rounded sizes made up to `n`: one too many leaves group 4, what is missing joins
      group 1. */
  function Corrected(n: nat, a: nat, b: nat): Sizes {
    if 2 * a + 2 * b > n then Sizes(a, b, b, if a > 0 then a - 1 else 0) else Sizes(a + (n - (2 * a + 2 * b)), b, b, a)
  }

  /** One or two countries are Group 1 and, for the second, Group 3. */
  function SizesOf(n: nat): Sizes {
    if n == 0 then Sizes(0, 0, 0, 0)
    else if n == 1 then Sizes(1, 0, 0, 0)
    else if n == 2 then Sizes(1, 0, 1, 0)
    else Corrected(n, Fifth(n), ThreeTenths(n))
  }

  lemma SharesSum(n: nat)
    ensures 2 * n - 5 < 10 * Fifth(n) <= 2 * n + 5 && 3 * n - 5 < 10 * ThreeTenths(n) <= 3 * n + 5
    ensures n - 1 <= 2 * Fifth(n) + 2 * ThreeTenths(n) <= n + 1
    ensures n >= 3 ==> Fifth(n) > 0
  {
    var a, b := Fifth(n), ThreeTenths(n);
    assert 10 * a + (2 * n + 5) % 10 == 2 * n + 5;
    assert 10 * b + (3 * n + 5) % 10 == 3 * n + 5;
    SumNear(n, a, b);
  }

  lemma SumNear(n: nat, a: nat, b: nat)
    requires 2 * n - 5 < 10 * a <= 2 * n + 5 && 3 * n - 5 < 10 * b <= 3 * n + 5
    ensures n - 1 <= 2 * a + 2 * b <= n + 1
  {
    assert 10 * a != 2 * n + 5 by { assert (2 * n + 5) % 2 == 1 && (10 * a) % 2 == 0; }
  }

  /** Groups 2 and 3 have their rounded shares; what is missing joins group 1, and one too many
      leaves group 4. */
  lemma SizesAre(n: nat)
    requires n >= 3
    ensures var s, a, b := SizesOf(n), (2 * n + 5) / 10, (3 * n + 5) / 10;
            && s.second == b && s.third == b
            && s.first == (if 2 * a + 2 * b < n then a + 1 else a)
            && s.fourth == (if 2 * a + 2 * b > n then a - 1 else a)
    ensures SizesOf(0) == Sizes(0, 0, 0, 0) && SizesOf(1) == Sizes(1, 0, 0, 0) && SizesOf(2) == Sizes(1, 0, 1, 0)
  {
    SharesSum(n);
  }

  /** `size` is within one of a tenth of `share`. */
  predicate Near(size: nat, share: nat) {
    share - 10 <= 10 * size <= share + 10
  }

  /** The sizes make up all `n`, group 1 is not empty, and each is within one of its share. */
  ghost predicate Fair(s: Sizes, n: nat) {
    && s.Sum() == n && (n >= 1 ==> s.first >= 1)
    && Near(s.first, 2 * n) && Near(s.second, 3 * n) && Near(s.third, 3 * n) && Near(s.fourth, 2 * n)
  }

  lemma CorrectedFair(n: nat, a: nat, b: nat)
    requires 2 * n - 5 < 10 * a <= 2 * n + 5 && 3 * n - 5 < 10 * b <= 3 * n + 5 && n - 1 <= 2 * a + 2 * b <= n + 1
             && a > 0
    ensures Fair(Corrected(n, a, b), n)
  {
  }

  /** Every split is fair. */
  lemma SizesAreFair(n: nat)
    ensures Fair(SizesOf(n), n)
  {
    if n >= 3 {
      SharesSum(n);
      CorrectedFair(n, Fifth(n), ThreeTenths(n));
    }
  }

  method BandSizes(n: nat) returns (r: Sizes)
    ensures r == SizesOf(n)
  {
    if n == 0 { return Sizes(0, 0, 0, 0); }
    if n == 1 { return Sizes(1, 0, 0, 0); }
    SharesSum(n);
    var sizes := new nat[4];
    sizes[0], sizes[1], sizes[2], sizes[3] := Fifth(n), ThreeTenths(n), ThreeTenths(n), Fifth(n);
    var sum := sizes[0] + sizes[1] + sizes[2] + sizes[3];
    if sum > n {
      TakeBack(sizes, sum - n);
    } else if sum < n {
      sizes[0] := sizes[0] + (n - sum);
    }
    if sizes[0] == 0 {
      FillFirst(sizes);
    }
    r := Sizes(sizes[0], sizes[1], sizes[2], sizes[3]);
  }

  /** Takes up to `extra` back, last group first. */
  method TakeBack(sizes: array<nat>, extra: nat)
    requires sizes.Length == 4 && extra <= sizes[3]
    modifies sizes
    ensures sizes[0] == old(sizes[0]) && sizes[1] == old(sizes[1]) && sizes[2] == old(sizes[2])
            && sizes[3] == old(sizes[3]) - extra
  {
    var left, index := extra, 4;
    while index > 0
      invariant 0 <= index <= 4
      invariant index == 4 ==> left == extra && sizes[3] == old(sizes[3])
      invariant index < 4 ==> left == 0 && sizes[3] == old(sizes[3]) - extra
      invariant sizes[0] == old(sizes[0]) && sizes[1] == old(sizes[1]) && sizes[2] == old(sizes[2])
    {
      index := index - 1;
      var take := if left < sizes[index] then left else sizes[index];
      sizes[index] := sizes[index] - take;
      left := left - take;
    }
  }

  /** Gives an empty group 1 one country of the next group that has any. */
  method FillFirst(sizes: array<nat>)
    requires sizes.Length == 4 && sizes[0] == 0
    modifies sizes
    ensures var s, now := old(sizes[..]), sizes[..];
            now ==
              if s[1] > 0 then [1, s[1] - 1, s[2], s[3]]
              else if s[2] > 0 then [1, 0, s[2] - 1, s[3]]
              else if s[3] > 0 then [1, 0, 0, s[3] - 1]
              else s
  {
    for index := 1 to 4
      invariant sizes[..] == old(sizes[..])
      invariant forall k :: 0 <= k < index ==> sizes[k] == 0
    {
      if sizes[index] > 0 {
        sizes[index] := sizes[index] - 1;
        sizes[0] := 1;
        return;
      }
    }
  }

  // ------------------------------------------------------------- temperatures

  function Temperature(tier: nat, index: nat, len: nat): real {
    if tier == 1 then 1.0
    else
      var hot, cool := if tier == 2 then 0.99 else 0.69, if tier == 2 then 0.70 else 0.10;
      if len <= 1 then hot else hot + (cool - hot) * (index as real / (len - 1) as real)
  }

  lemma SameSign(x: real, z: real)
    requires z > 0.0 && x * z >= 0.0
    ensures x >= 0.0
  {
  }

  lemma StepsRise(i: nat, j: nat, d: nat)
    requires i <= j <= d && d > 0
    ensures 0.0 <= i as real / d as real <= j as real / d as real <= 1.0
  {
    var x, y, z := i as real / d as real, j as real / d as real, d as real;
    assert x * z == i as real && y * z == j as real;
    assert (y - x) * z == j as real - i as real && (1.0 - y) * z == z - j as real;
    SameSign(x, z);
    SameSign(y - x, z);
    SameSign(1.0 - y, z);
  }

  /** The temperature falls within a tier, between its bounds. */
  lemma TemperatureFalls(tier: nat, i: nat, j: nat, len: nat)
    requires i <= j < len
    ensures Temperature(tier, i, len) >= Temperature(tier, j, len)
    ensures tier == 1 ==> Temperature(tier, i, len) == 1.0
    ensures tier == 2 ==> 0.70 <= Temperature(tier, i, len) <= 0.99
    ensures tier == 3 ==> 0.10 <= Temperature(tier, i, len) <= 0.69
  {
    if tier != 1 && len > 1 {
      StepsRise(i, j, len - 1);
    }
  }

  lemma Steps(i: nat, d: nat)
    requires d > 0
    ensures (i + 1) as real / d as real - i as real / d as real == 1.0 / d as real
  {
    var z := d as real;
    assert (i + 1) as real / z * z == i as real + 1.0 && i as real / z * z == i as real && 1.0 / z * z == 1.0;
  }

  /** The first of a lower tier has its highest temperature and the last its lowest, and between
      them the temperature falls in equal steps. */
  lemma TemperatureIsEven(tier: nat, i: nat, len: nat)
    requires (tier == 2 || tier == 3) && i < len
    ensures Temperature(tier, 0, len) == if tier == 2 then 0.99 else 0.69
    ensures len > 1 ==> Temperature(tier, len - 1, len) == if tier == 2 then 0.70 else 0.10
    ensures i + 2 < len ==> Temperature(tier, i, len) - Temperature(tier, i + 1, len) ==
                            Temperature(tier, i + 1, len) - Temperature(tier, i + 2, len)
  {
    if len > 1 {
      var d := (len - 1) as real;
      assert 0.0 / d == 0.0 && d / d == 1.0;
      EvenSteps(if tier == 2 then -0.29 else -0.59, i, len - 1);
    }
  }

  lemma EvenSteps(fall: real, i: nat, d: nat)
    requires d > 0
    ensures fall * (i as real / d as real) - fall * ((i + 1) as real / d as real) ==
            fall * ((i + 1) as real / d as real) - fall * ((i + 2) as real / d as real)
  {
    Steps(i, d);
    Steps(i + 1, d);
    var x, y, z, step := i as real / d as real, (i + 1) as real / d as real, (i + 2) as real / d as real,
      1.0 / d as real;
    assert y == x + step && z == x + step + step;
    assert fall * y == fall * x + fall * step && fall * z == fall * x + fall * step + fall * step;
  }

  /** How many ranks get a band. */
  function Kept(s: Sizes): nat { s.first + s.second + s.third }

  function TierOf(s: Sizes, offset: nat): nat {
    if offset < s.first then 1 else if offset < s.first + s.second then 2 else 3
  }

  function Heat(s: Sizes, offset: nat): real
    requires offset < Kept(s)
  {
    if offset < s.first then Temperature(1, offset, s.first)
    else if offset < s.first + s.second then Temperature(2, offset - s.first, s.second)
    else Temperature(3, offset - s.first - s.second, s.third)
  }

  lemma HeatBounds(s: Sizes, i: nat)
    requires i < Kept(s)
    ensures TierOf(s, i) == 1 ==> Heat(s, i) == 1.0
    ensures TierOf(s, i) == 2 ==> 0.70 <= Heat(s, i) <= 0.99
    ensures TierOf(s, i) == 3 ==> 0.10 <= Heat(s, i) <= 0.69
  {
    if TierOf(s, i) == 2 { TemperatureFalls(2, i - s.first, i - s.first, s.second); }
    if TierOf(s, i) == 3 { TemperatureFalls(3, i - s.first - s.second, i - s.first - s.second, s.third); }
  }

  /** A later rank has no better tier and is no warmer. */
  lemma HeatFalls(s: Sizes, i: nat, j: nat)
    requires i <= j < Kept(s)
    ensures TierOf(s, i) <= TierOf(s, j) && Heat(s, i) >= Heat(s, j)
    ensures 0.10 <= Heat(s, j) && Heat(s, i) <= 1.0
  {
    HeatBounds(s, i);
    HeatBounds(s, j);
    if TierOf(s, i) == TierOf(s, j) {
      if TierOf(s, i) == 2 { TemperatureFalls(2, i - s.first, j - s.first, s.second); }
      if TierOf(s, i) == 3 { TemperatureFalls(3, i - s.first - s.second, j - s.first - s.second, s.third); }
    }
  }

  // ------------------------------------------------------------------ scoring

  /** A country, by its place in the code order, and its count. */
  datatype Country = Country(code: nat, count: nat)

  datatype Band = Band(country: Country, tier: nat, temperature: real)

  predicate Before(x: Country, y: Country) {
    x.count > y.count || (x.count == y.count && x.code <= y.code)
  }

  function Counted(counts: seq<Country>): (r: seq<Country>)
    ensures forall c :: c in r <==> c in counts && c.count > 0
  {
    if counts == [] then []
    else
      assert counts == [counts[0]] + counts[1..];
      (if counts[0].count > 0 then [counts[0]] else []) + Counted(counts[1..])
  }

  function Ranked(counts: seq<Country>): seq<Country> { Sort(Before, Counted(counts)) }

  /** The band of one rank, if it gets one. */
  method Place(sizes: Sizes, country: Country, offset: nat) returns (placed: bool, band: Band)
    ensures placed <==> offset < Kept(sizes)
    ensures placed ==> band == Band(country, TierOf(sizes, offset), Heat(sizes, offset))
  {
    var g1, g2, g3 := sizes.first, sizes.second, sizes.third;
    var tier, index, len;
    if offset < g1 {
      tier, index, len := 1, offset, g1;
    } else if offset < g1 + g2 {
      tier, index, len := 2, offset - g1, g2;
    } else if offset < g1 + g2 + g3 {
      tier, index, len := 3, offset - g1 - g2, g3;
    } else {
      return false, Band(country, 4, 0.0);
    }
    placed, band := true, Band(country, tier, Temperature(tier, index, len));
  }

  /** The bands in rank order, as many as groups 1 to 3 hold. */
  ghost predicate IsScore(counts: seq<Country>, bands: seq<Band>) {
    Scores(Ranked(counts), SizesOf(|Ranked(counts)|), bands)
  }

  ghost predicate Scores(ranked: seq<Country>, s: Sizes, bands: seq<Band>) {
    && |bands| == Kept(s) <= |ranked|
    && forall i :: 0 <= i < |bands| ==> bands[i] == Band(ranked[i], TierOf(s, i), Heat(s, i))
  }

  method ScoreCounts(counts: seq<Country>) returns (bands: seq<Band>)
    ensures IsScore(counts, bands)
  {
    var ranked := Ranked(counts);
    SizesAreFair(|ranked|);
    var sizes := BandSizes(|ranked|);
    bands := ScoreRanked(ranked, sizes);
  }

  method ScoreRanked(ranked: seq<Country>, sizes: Sizes) returns (bands: seq<Band>)
    requires Kept(sizes) <= |ranked|
    ensures Scores(ranked, sizes, bands)
  {
    bands := [];
    for offset := 0 to |ranked|
      invariant |bands| == if offset <= Kept(sizes) then offset else Kept(sizes)
      invariant forall i :: 0 <= i < |bands| ==> bands[i] == Band(ranked[i], TierOf(sizes, i), Heat(sizes, i))
    {
      var placed, band := Place(sizes, ranked[offset], offset);
      if placed { bands := bands + [band]; }
    }
  }

  lemma RankedFalls(counts: seq<Country>)
    ensures forall i, j :: 0 <= i < j < |Ranked(counts)| ==> Ranked(counts)[i].count >= Ranked(counts)[j].count
    ensures forall i, j :: 0 <= i < j < |Ranked(counts)| && Ranked(counts)[i].count == Ranked(counts)[j].count ==>
            Ranked(counts)[i].code <= Ranked(counts)[j].code
    ensures forall c :: c in Ranked(counts) <==> c in counts && c.count > 0
  {
    SortSorts(Before, Counted(counts));
    forall i, j | 0 <= i < j < |Ranked(counts)|
      ensures Ranked(counts)[i].count >= Ranked(counts)[j].count
      ensures Ranked(counts)[i].count == Ranked(counts)[j].count ==> Ranked(counts)[i].code <= Ranked(counts)[j].code
    {
      assert Before(Ranked(counts)[i], Ranked(counts)[j]);
    }
    forall c ensures c in Ranked(counts) <==> c in counts && c.count > 0 { SortKeeps(Before, Counted(counts), c); }
  }

  /** A country with strictly more articles never has a worse tier or a lower temperature. */
  lemma MoreIsNeverColder(counts: seq<Country>, bands: seq<Band>, i: nat, j: nat)
    requires IsScore(counts, bands) && i < |bands| && j < |bands| && bands[i].country.count > bands[j].country.count
    ensures bands[i].tier <= bands[j].tier && bands[i].temperature >= bands[j].temperature
    ensures 0.10 <= bands[j].temperature && bands[i].temperature <= 1.0
  {
    RankedFalls(counts);
    HeatFalls(SizesOf(|Ranked(counts)|), i, j);
  }

  /** A country without a band has no article or no more than any country with one. */
  lemma OmittedAreSmallest(counts: seq<Country>, bands: seq<Band>, c: Country, i: nat)
    requires IsScore(counts, bands) && c in counts && i < |bands|
    requires forall k :: 0 <= k < |bands| ==> bands[k].country != c
    ensures c.count <= bands[i].country.count
  {
    RankedFalls(counts);
    if c.count > 0 {
      var ranked := Ranked(counts);
      assert forall k :: 0 <= k < |bands| ==> ranked[k] != c;
      var j :| 0 <= j < |ranked| && ranked[j] == c;
    }
  }

  /** Someone always has the top tier. */
  lemma FirstIsHottest(counts: seq<Country>, bands: seq<Band>)
    requires IsScore(counts, bands) && exists c :: c in counts && c.count > 0
    ensures bands != [] && bands[0].tier == 1 && bands[0].temperature == 1.0
  {
    RankedFalls(counts);
    var c :| c in counts && c.count > 0;
    assert c in Ranked(counts);
    SizesAreFair(|Ranked(counts)|);
  }
}
