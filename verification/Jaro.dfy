/** src/common/name-match/name-match.service.ts: the Jaro and Jaro-Winkler scores of two strings. */
module Jaro {

  function MaxInt(a: int, b: int): int { if a >= b then a else b }
  function MinInt(a: int, b: int): int { if a <= b then a else b }

  // ── Greedy matching ────────────────────────────────────────────────────────

  /** How far apart two positions may be and still match. */
  function MatchDist(len1: nat, len2: nat): nat { MaxInt(MaxInt(len1, len2) / 2 - 1, 0) }

  function WindowStart(s1: string, s2: string, i: nat): nat { MaxInt(0, i - MatchDist(|s1|, |s2|)) }

  function WindowEnd(s1: string, s2: string, i: nat): (end: nat)
    ensures end <= |s2|
  {
    MinInt(i + MatchDist(|s1|, |s2|) + 1, |s2|)
  }

  /** The first free position of `s2` in [j, end) that holds `c`, or |s2| when there is none. */
  function Pick(c: char, s2: string, taken: seq<bool>, j: nat, end: nat): (k: nat)
    requires end <= |s2| == |taken|
    ensures k < |s2| ==> j <= k < end && !taken[k] && s2[k] == c
    ensures forall m :: j <= m < end && m < k ==> taken[m] || s2[m] != c
    ensures k <= |s2|
    decreases end - j
  {
    if j >= end then |s2|
    else if !taken[j] && s2[j] == c then j
    else Pick(c, s2, taken, j + 1, end)
  }

  predicate InWindow(s1: string, s2: string, i: nat, k: nat) { WindowStart(s1, s2, i) <= k < WindowEnd(s1, s2, i) }

  /** The position of `s2` that position `i` of `s1` is paired with, or |s2|. */
  function Partner(s1: string, s2: string, i: nat, taken: seq<bool>): (k: nat)
    requires i < |s1| && |s2| == |taken|
    ensures k < |s2| ==> !taken[k] && s2[k] == s1[i] && InWindow(s1, s2, i, k)
  {
    Pick(s1[i], s2, taken, WindowStart(s1, s2, i), WindowEnd(s1, s2, i))
  }

  /** The flags of both strings: `first[i]` for the characters of s1 seen so far, `second[j]` for all of s2. */
  datatype Flags = Flags(first: seq<bool>, second: seq<bool>)

  /** The flags once the first `n` characters of `s1` have been tried in order. */
  function Greedy(s1: string, s2: string, n: nat): (f: Flags)
    requires n <= |s1|
    ensures |f.first| == n && |f.second| == |s2|
  {
    if n == 0 then Flags([], seq(|s2|, j => false))
    else Extend(s1, s2, Greedy(s1, s2, n - 1))
  }

  function Extend(s1: string, s2: string, f: Flags): (g: Flags)
    requires |f.first| < |s1| && |f.second| == |s2|
    ensures |g.first| == |f.first| + 1 && |g.second| == |s2|
  {
    var k := Partner(s1, s2, |f.first|, f.second);
    if k < |s2| then Flags(f.first + [true], f.second[k := true]) else Flags(f.first + [false], f.second)
  }

  /** The flagged characters, in order. */
  function Picked(s: string, flags: seq<bool>): (chars: string)
    requires |s| == |flags|
    ensures |chars| <= |s|
  {
    if s == [] then []
    else
      var n := |s| - 1;
      Picked(s[..n], flags[..n]) + if flags[n] then [s[n]] else []
  }

  /** Positions where two strings of equal length differ. */
  function Mismatches(a: string, b: string): (count: nat)
    requires |a| == |b|
    ensures count <= |a|
    ensures count == 0 ==> a == b
  {
    if a == [] then 0
    else
      var n := |a| - 1;
      Mismatches(a[..n], b[..n]) + if a[n] != b[n] then 1 else 0
  }

  function Jaro(s1: string, s2: string): real {
    if s1 == s2 then 1.0
    else if |s1| == 0 || |s2| == 0 then 0.0
    else
      var f := Greedy(s1, s2, |s1|);
      GreedyPairs(s1, s2, |s1|);
      assert s1[..|s1|] == s1;
      var chars1, chars2 := Picked(s1, f.first), Picked(s2, f.second);
      if |chars1| == 0 then 0.0
      else Score(|chars1|, |s1|, |s2|, Mismatches(chars1, chars2))
  }

  function Score(matches: nat, len1: nat, len2: nat, transpositions: nat): real
    requires matches > 0 && len1 > 0 && len2 > 0
  {
    (Ratio(matches as real, len1 as real) + Ratio(matches as real, len2 as real)
     + Ratio(matches as real - transpositions as real / 2.0, matches as real)) / 3.0
  }

  function Ratio(part: real, whole: real): real
    requires whole > 0.0
  {
    part / whole
  }

  // ── What the greedy pass gives ─────────────────────────────────────────────

  /** The flagged characters without their order. */
  ghost function Bag(s: string, flags: seq<bool>): multiset<char>
    requires |s| == |flags|
  {
    if s == [] then multiset{}
    else
      var n := |s| - 1;
      Bag(s[..n], flags[..n]) + if flags[n] then multiset{s[n]} else multiset{}
  }

  lemma {:induction false} PickedIsBag(s: string, flags: seq<bool>)
    requires |s| == |flags|
    ensures multiset(Picked(s, flags)) == Bag(s, flags)
  {
    if s != [] {
      var n := |s| - 1;
      PickedIsBag(s[..n], flags[..n]);
    }
  }

  lemma {:induction false} BagFlip(s: string, flags: seq<bool>, k: nat)
    requires |s| == |flags| && k < |s| && !flags[k]
    ensures Bag(s, flags[k := true]) == Bag(s, flags) + multiset{s[k]}
  {
    var n := |s| - 1;
    if k < n {
      assert flags[k := true][..n] == flags[..n][k := true];
      BagFlip(s[..n], flags[..n], k);
    } else {
      assert flags[k := true][..n] == flags[..n];
    }
  }

  lemma PickedFlip(s: string, flags: seq<bool>, k: nat)
    requires |s| == |flags| && k < |s| && !flags[k]
    ensures multiset(Picked(s, flags[k := true])) == multiset(Picked(s, flags)) + multiset{s[k]}
    ensures |Picked(s, flags[k := true])| == |Picked(s, flags)| + 1
  {
    hide Picked, Bag;
    BagFlip(s, flags, k);
    PickedIsBag(s, flags);
    PickedIsBag(s, flags[k := true]);
    assert |Picked(s, flags)| == |multiset(Picked(s, flags))|;
    assert |Picked(s, flags[k := true])| == |multiset(Picked(s, flags[k := true]))|;
  }

  lemma {:induction false} PickedNone(s: string)
    ensures Picked(s, seq(|s|, j => false)) == []
  {
    if s != [] {
      var n := |s| - 1;
      assert seq(|s|, j => false)[..n] == seq(|s[..n]|, j => false);
      PickedNone(s[..n]);
    }
  }

  lemma PickedAppend(s: string, flags: seq<bool>, c: char, flag: bool)
    requires |s| == |flags|
    ensures Picked(s + [c], flags + [flag]) == Picked(s, flags) + if flag then [c] else []
  {
    assert (s + [c])[..|s|] == s && (flags + [flag])[..|s|] == flags;
  }

  /** As many characters flagged on either side, and the same characters. */
  ghost predicate Paired(s1: string, s2: string, f: Flags) {
    && |f.first| <= |s1| && |f.second| == |s2|
    && multiset(Picked(s1[..|f.first|], f.first)) == multiset(Picked(s2, f.second))
    && |Picked(s1[..|f.first|], f.first)| == |Picked(s2, f.second)|
  }

  lemma ExtendKeepsPaired(s1: string, s2: string, f: Flags)
    requires Paired(s1, s2, f) && |f.first| < |s1|
    ensures Paired(s1, s2, Extend(s1, s2, f))
  {
    hide Picked, Partner;
    var i := |f.first|;
    var k := Partner(s1, s2, i, f.second);
    assert s1[..i + 1] == s1[..i] + [s1[i]];
    PickedAppend(s1[..i], f.first, s1[i], k < |s2|);
    if k < |s2| {
      PickedFlip(s2, f.second, k);
    }
  }

  /**
   * The two sides are flagged equally often, and the flagged characters of the two strings are permutations of each
   * other.
   */
  lemma {:induction false} GreedyPairs(s1: string, s2: string, n: nat)
    requires n <= |s1|
    ensures Paired(s1, s2, Greedy(s1, s2, n))
  {
    if n == 0 {
      PickedNone(s2);
    } else {
      hide Paired, Extend;
      GreedyPairs(s1, s2, n - 1);
      assert |Greedy(s1, s2, n - 1).first| == n - 1;
      ExtendKeepsPaired(s1, s2, Greedy(s1, s2, n - 1));
    }
  }

  /**
   * `p` pairs the flagged positions of the two strings one to one, each with an equal character inside its window;
   * |s2| stands for no partner.
   */
  ghost predicate IsMatching(s1: string, s2: string, f: Flags, p: seq<nat>) {
    && |p| == |f.first| <= |s1| && |f.second| == |s2|
    && (forall i :: 0 <= i < |p| ==> (f.first[i] <==> p[i] < |s2|))
    && (forall i :: 0 <= i < |p| && p[i] < |s2| ==>
          f.second[p[i]] && s1[i] == s2[p[i]] && InWindow(s1, s2, i, p[i]))
    && (forall i, j :: 0 <= i < j < |p| && p[i] < |s2| ==> p[i] != p[j])
    && (forall k :: 0 <= k < |s2| && f.second[k] ==> k in p)
  }

  lemma ExtendKeepsMatching(s1: string, s2: string, f: Flags, p: seq<nat>)
    requires IsMatching(s1, s2, f, p) && |p| < |s1|
    ensures IsMatching(s1, s2, Extend(s1, s2, f), p + [Partner(s1, s2, |p|, f.second)])
  {
    hide Partner, InWindow;
    var q := p + [Partner(s1, s2, |p|, f.second)];
    forall k | 0 <= k < |s2| && Extend(s1, s2, f).second[k] ensures k in q {
      assert k == q[|p|] || k in p;
    }
  }

  /** The partner found for each of the first `n` characters of `s1`. */
  function Partners(s1: string, s2: string, n: nat): (p: seq<nat>)
    requires n <= |s1|
    ensures |p| == n
  {
    if n == 0 then []
    else Partners(s1, s2, n - 1) + [Partner(s1, s2, n - 1, Greedy(s1, s2, n - 1).second)]
  }

  lemma MatchingNext(s1: string, s2: string, n: nat, f: Flags, p: seq<nat>)
    requires 0 < n <= |s1| && f == Greedy(s1, s2, n - 1) && p == Partners(s1, s2, n - 1)
    requires IsMatching(s1, s2, f, p)
    ensures IsMatching(s1, s2, Greedy(s1, s2, n), Partners(s1, s2, n))
  {
    hide IsMatching, Extend, Partner;
    ExtendKeepsMatching(s1, s2, f, p);
  }

  /** The flags are those of a one-to-one matching of equal characters inside their windows. */
  lemma {:induction false} GreedyIsMatching(s1: string, s2: string, n: nat)
    requires n <= |s1|
    ensures IsMatching(s1, s2, Greedy(s1, s2, n), Partners(s1, s2, n))
  {
    if n > 0 {
      GreedyIsMatching(s1, s2, n - 1);
      var f, p := Greedy(s1, s2, n - 1), Partners(s1, s2, n - 1);
      hide *;
      MatchingNext(s1, s2, n, f, p);
    }
  }

  /** No pair of equal characters within the window is left with both sides unflagged. */
  lemma {:induction false} GreedyIsMaximal(s1: string, s2: string, n: nat, i: nat, j: nat)
    requires i < n <= |s1| && InWindow(s1, s2, i, j)
    ensures var f := Greedy(s1, s2, n);
            !f.first[i] && !f.second[j] ==> s1[i] != s2[j]
  {
    hide MatchDist;
    if i < n - 1 {
      GreedyIsMaximal(s1, s2, n - 1, i, j);
    }
  }

  // ── Scores ─────────────────────────────────────────────────────────────────

  lemma {:induction false} PickedAll(s: string, flags: seq<bool>)
    requires |s| == |flags| && |Picked(s, flags)| == |s|
    ensures Picked(s, flags) == s
  {
    if s != [] {
      var n := |s| - 1;
      PickedAll(s[..n], flags[..n]);
      assert s == s[..n] + [s[n]];
    }
  }

  lemma RatioWithin(part: real, whole: real)
    requires 0.0 <= part <= whole && whole > 0.0
    ensures 0.0 <= Ratio(part, whole) <= 1.0
    ensures Ratio(part, whole) == 1.0 <==> part == whole
    ensures part > 0.0 ==> Ratio(part, whole) > 0.0
  {
    assert Ratio(part, whole) * whole == part;
  }

  lemma ScoreWithin(matches: nat, len1: nat, len2: nat, t: nat)
    requires 0 < matches <= len1 && matches <= len2 && t <= matches
    ensures 0.0 < Score(matches, len1, len2, t) <= 1.0
    ensures Score(matches, len1, len2, t) == 1.0 <==> matches == len1 == len2 && t == 0
  {
    hide Ratio;
    RatioWithin(matches as real, len1 as real);
    RatioWithin(matches as real, len2 as real);
    RatioWithin(matches as real - t as real / 2.0, matches as real);
  }

  lemma RatioTimes(part: real, whole: real)
    requires whole > 0.0
    ensures Ratio(part, whole) * whole == part
  {
  }

  /** 6 m a b times the mean of three ratios, each taken times its own denominator. */
  lemma ThirdsOfRatios(m: real, a: real, b: real, t: real, x: real, y: real, z: real)
    requires x * a == m && y * b == m && z * m == m - t / 2.0
    ensures 6.0 * m * a * b * ((x + y + z) / 3.0) == 2.0 * m * m * (a + b) + (2.0 * m - t) * a * b
  {
    var third := (x + y + z) / 3.0;
    assert 6.0 * m * a * b * third == 2.0 * m * a * b * (x + y + z);
    assert 2.0 * m * a * b * x == 2.0 * m * b * (x * a);
    assert 2.0 * m * a * b * y == 2.0 * m * a * (y * b);
    assert 2.0 * m * a * b * z == 2.0 * a * b * (z * m);
    assert 2.0 * m * b * m + 2.0 * m * a * m == 2.0 * m * m * (a + b);
    assert 2.0 * a * b * (m - t / 2.0) == (2.0 * m - t) * a * b;
  }

  /**
   * The score of two different non-empty strings, from the number m of matched characters and the number t of positions
   * at which the two sequences of matched characters differ.
   */
  lemma JaroLaw(s1: string, s2: string)
    requires s1 != s2 && s1 != [] && s2 != []
    ensures var f := Greedy(s1, s2, |s1|);
            var chars1, chars2 := Picked(s1, f.first), Picked(s2, f.second);
            var m, a, b := |chars1| as real, |s1| as real, |s2| as real;
            && |chars1| == |chars2|
            && (|chars1| == 0 ==> Jaro(s1, s2) == 0.0)
            && (|chars1| > 0 ==>
                  6.0 * m * a * b * Jaro(s1, s2)
                  == 2.0 * m * m * (a + b) + (2.0 * m - Mismatches(chars1, chars2) as real) * a * b)
  {
    hide Greedy, Picked, Mismatches, Ratio;
    var f := Greedy(s1, s2, |s1|);
    GreedyPairs(s1, s2, |s1|);
    assert s1[..|s1|] == s1;
    var chars1, chars2 := Picked(s1, f.first), Picked(s2, f.second);
    var m, a, b := |chars1| as real, |s1| as real, |s2| as real;
    if |chars1| > 0 {
      var t := Mismatches(chars1, chars2) as real;
      RatioTimes(m, a);
      RatioTimes(m, b);
      RatioTimes(m - t / 2.0, m);
      ThirdsOfRatios(m, a, b, t, Ratio(m, a), Ratio(m, b), Ratio(m - t / 2.0, m));
    }
  }

  // ── A worked score ─────────────────────────────────────────────────────────

  /** The partner is the first free equal character of the window. */
  lemma PartnerIs(s1: string, s2: string, i: nat, taken: seq<bool>, k: nat)
    requires i < |s1| && |s2| == |taken| && k < |s2|
    requires InWindow(s1, s2, i, k) && !taken[k] && s2[k] == s1[i]
    requires forall j :: WindowStart(s1, s2, i) <= j < k ==> taken[j] || s2[j] != s1[i]
    ensures Partner(s1, s2, i, taken) == k
  {
  }

  lemma GreedyNext(s1: string, s2: string, i: nat, k: nat, first: seq<bool>, second: seq<bool>)
    requires i < |s1| && k < |s2| && Greedy(s1, s2, i) == Flags(first, second)
    requires InWindow(s1, s2, i, k) && !second[k] && s2[k] == s1[i]
    requires forall j :: WindowStart(s1, s2, i) <= j < k ==> second[j] || s2[j] != s1[i]
    ensures Greedy(s1, s2, i + 1) == Flags(first + [true], second[k := true])
  {
    hide Partner, InWindow, WindowStart;
    PartnerIs(s1, s2, i, second, k);
  }

  lemma {:induction false} AllPicked(s: string, flags: seq<bool>)
    requires |s| == |flags| && forall i :: 0 <= i < |flags| ==> flags[i]
    ensures Picked(s, flags) == s
  {
    if s != [] {
      var n := |s| - 1;
      AllPicked(s[..n], flags[..n]);
      assert s == s[..n] + [s[n]];
    }
  }

  lemma MarthaHead()
    ensures Greedy("martha", "marhta", 3) == Flags([true, true, true], [true, true, true, false, false, false])
  {
    var a, b := "martha", "marhta";
    var none := [false, false, false, false, false, false];
    assert seq(6, j => false) == none;
    assert Greedy(a, b, 0) == Flags([], none);
    assert MatchDist(6, 6) == 2;
    hide Greedy, Partner, MatchDist;
    GreedyNext(a, b, 0, 0, [], none);
    GreedyNext(a, b, 1, 1, [true], none[0 := true]);
    GreedyNext(a, b, 2, 2, [true, true], none[0 := true][1 := true]);
    assert none[0 := true][1 := true][2 := true] == [true, true, true, false, false, false];
  }

  lemma MarthaMiddle()
    ensures Greedy("martha", "marhta", 5)
         == Flags([true, true, true, true, true], [true, true, true, true, true, false])
  {
    var a, b := "martha", "marhta";
    var half := [true, true, true, false, false, false];
    MarthaHead();
    assert MatchDist(6, 6) == 2;
    hide Greedy, Partner, MatchDist;
    GreedyNext(a, b, 3, 4, [true, true, true], half);
    GreedyNext(a, b, 4, 3, [true, true, true, true], half[4 := true]);
    assert half[4 := true][3 := true] == [true, true, true, true, true, false];
  }

  lemma MarthaFlags()
    ensures Greedy("martha", "marhta", 6)
         == Flags([true, true, true, true, true, true], [true, true, true, true, true, true])
  {
    var most := [true, true, true, true, true, false];
    MarthaMiddle();
    assert MatchDist(6, 6) == 2;
    hide Greedy, Partner, MatchDist;
    GreedyNext("martha", "marhta", 5, 5, [true, true, true, true, true], most);
    assert most[5 := true] == [true, true, true, true, true, true];
  }

  lemma MarthaMismatches()
    ensures Mismatches("martha", "marhta") == 2
  {
    MismatchesStep("", "", 'm', 'm');
    MismatchesStep("m", "m", 'a', 'a');
    MismatchesStep("ma", "ma", 'r', 'r');
    MismatchesStep("mar", "mar", 't', 'h');
    MismatchesStep("mart", "marh", 'h', 't');
    MismatchesStep("marth", "marht", 'a', 'a');
    hide Mismatches;
    assert "" + ['m'] == "m" && "m" + ['a'] == "ma" && "ma" + ['r'] == "mar";
    assert "mar" + ['t'] == "mart" && "mar" + ['h'] == "marh";
    assert "mart" + ['h'] == "marth" && "marh" + ['t'] == "marht";
    assert "marth" + ['a'] == "martha" && "marht" + ['a'] == "marhta";
  }

  lemma MarthaPicked()
    ensures var f := Greedy("martha", "marhta", 6);
            Picked("martha", f.first) == "martha" && Picked("marhta", f.second) == "marhta"
  {
    hide Greedy, Picked;
    MarthaFlags();
    AllPicked("martha", [true, true, true, true, true, true]);
    AllPicked("marhta", [true, true, true, true, true, true]);
  }

  lemma SixOfSix(score: real)
    requires 6.0 * 6.0 * 6.0 * 6.0 * score == 2.0 * 6.0 * 6.0 * (6.0 + 6.0) + (2.0 * 6.0 - 2.0) * 6.0 * 6.0
    ensures score == 17.0 / 18.0
  {
  }

  /** Six matches, two of them out of place: 17/18. */
  lemma MarthaScore()
    ensures Jaro("martha", "marhta") == 17.0 / 18.0
  {
    var a, b := "martha", "marhta";
    assert a[3] != b[3] && |a| == 6 && |b| == 6;
    hide Greedy, Picked, Mismatches, Jaro;
    JaroLaw(a, b);
    MarthaPicked();
    MarthaMismatches();
    SixOfSix(Jaro(a, b));
  }

  /** The Jaro score lies in [0, 1] and is 1 exactly for equal strings. */
  lemma JaroWithin(s1: string, s2: string)
    ensures 0.0 <= Jaro(s1, s2) <= 1.0
    ensures Jaro(s1, s2) == 1.0 <==> s1 == s2
  {
    hide Score, Mismatches;
    if s1 != s2 && |s1| > 0 && |s2| > 0 {
      var f := Greedy(s1, s2, |s1|);
      GreedyPairs(s1, s2, |s1|);
      assert s1[..|s1|] == s1;
      var chars1, chars2 := Picked(s1, f.first), Picked(s2, f.second);
      if |chars1| > 0 {
        ScoreWithin(|chars1|, |s1|, |s2|, Mismatches(chars1, chars2));
        if Jaro(s1, s2) == 1.0 {
          PickedAll(s1, f.first);
          PickedAll(s2, f.second);
        }
      }
    }
  }

  // ── The service's jaro ─────────────────────────────────────────────────────

  lemma {:induction false} PickedPrefix(s: string, flags: seq<bool>, k: nat)
    requires |s| == |flags| && k <= |s|
    ensures |Picked(s[..k], flags[..k])| <= |Picked(s, flags)|
    decreases |s|
  {
    if k < |s| {
      var n := |s| - 1;
      assert s[..n][..k] == s[..k] && flags[..n][..k] == flags[..k];
      PickedPrefix(s[..n], flags[..n], k);
    } else {
      assert s[..k] == s && flags[..k] == flags;
    }
  }

  lemma PickedStep(s: string, flags: seq<bool>, k: nat)
    requires |s| == |flags| && k < |s|
    ensures Picked(s[..k + 1], flags[..k + 1]) == Picked(s[..k], flags[..k]) + if flags[k] then [s[k]] else []
  {
    assert s[..k + 1] == s[..k] + [s[k]] && flags[..k + 1] == flags[..k] + [flags[k]];
    PickedAppend(s[..k], flags[..k], s[k], flags[k]);
  }

  lemma MismatchesStep(a: string, b: string, c: char, d: char)
    requires |a| == |b|
    ensures Mismatches(a + [c], b + [d]) == Mismatches(a, b) + if c != d then 1 else 0
  {
    assert (a + [c])[..|a|] == a && (b + [d])[..|b|] == b;
  }

  /** jaro: flag arrays, two passes; the scan of s2 in the second pass never leaves the array. */
  method ComputeJaro(s1: string, s2: string) returns (score: real)
    ensures score == Jaro(s1, s2)
  {
    hide Greedy, Picked, Mismatches, Score;
    if s1 == s2 {
      return 1.0;
    }
    var len1, len2 := |s1|, |s2|;
    if len1 == 0 || len2 == 0 {
      return 0.0;
    }
    var s1Matches := new bool[len1](i => false);
    var s2Matches := new bool[len2](j => false);
    var matches := FlagMatches(s1, s2, s1Matches, s2Matches);
    GreedyPairs(s1, s2, len1);
    assert s1[..len1] == s1;
    if matches == 0 {
      return 0.0;
    }
    var transpositions := CountTranspositions(s1, s2, s1Matches, s2Matches);
    score := Score(matches, len1, len2, transpositions);
  }

  /** First pass: greedily flag matching characters within the window. */
  method FlagMatches(s1: string, s2: string, s1Matches: array<bool>, s2Matches: array<bool>) returns (matches: nat)
    requires s1Matches != s2Matches && s1Matches.Length == |s1| && s2Matches.Length == |s2|
    requires forall i :: 0 <= i < |s1| ==> !s1Matches[i]
    requires forall j :: 0 <= j < |s2| ==> !s2Matches[j]
    modifies s1Matches, s2Matches
    ensures s1Matches[..] == Greedy(s1, s2, |s1|).first
    ensures s2Matches[..] == Greedy(s1, s2, |s1|).second
    ensures matches == |Picked(s1, Greedy(s1, s2, |s1|).first)|
  {
    hide *;
    ghost var f := Greedy(s1, s2, 0);
    GreedyStart(s1, s2);
    matches := 0;
    var i := 0;
    while i < |s1|
      invariant 0 <= i <= |s1| && f == Greedy(s1, s2, i)
      invariant forall m :: 0 <= m < i ==> s1Matches[m] == f.first[m]
      invariant forall m :: i <= m < |s1| ==> !s1Matches[m]
      invariant s2Matches[..] == f.second
      invariant matches == |Picked(s1[..i], f.first)|
    {
      var found := MatchOne(s1, s2, i, s1Matches, s2Matches, f);
      CountStep(s1, s2, f, found);
      if found {
        matches := matches + 1;
      }
      f := Extend(s1, s2, f);
      i := i + 1;
    }
    assert s1[..|s1|] == s1;
    assert s1Matches[..] == f.first;
  }

  lemma GreedyStart(s1: string, s2: string)
    ensures forall j :: 0 <= j < |s2| ==> !Greedy(s1, s2, 0).second[j]
    ensures Picked(s1[..0], Greedy(s1, s2, 0).first) == []
  {
  }

  lemma CountStep(s1: string, s2: string, f: Flags, found: bool)
    requires |f.first| < |s1| && |f.second| == |s2|
    requires Extend(s1, s2, f).first == f.first + [found]
    ensures |Picked(s1[..|f.first| + 1], Extend(s1, s2, f).first)|
         == |Picked(s1[..|f.first|], f.first)| + if found then 1 else 0
    ensures f == Greedy(s1, s2, |f.first|) ==> Extend(s1, s2, f) == Greedy(s1, s2, |f.first| + 1)
  {
    hide Picked, Extend;
    var i := |f.first|;
    assert s1[..i + 1] == s1[..i] + [s1[i]];
    PickedAppend(s1[..i], f.first, s1[i], found);
  }

  /** The inner loop: look for a free equal character in the window of position `i`. */
  method MatchOne(s1: string, s2: string, i: nat, s1Matches: array<bool>, s2Matches: array<bool>, ghost f: Flags)
    returns (found: bool)
    requires i == |f.first| < |s1| && f.second == s2Matches[..]
    requires s1Matches != s2Matches && s1Matches.Length == |s1| && s2Matches.Length == |s2| && !s1Matches[i]
    modifies s1Matches, s2Matches
    ensures Extend(s1, s2, f).first == f.first + [found]
    ensures Extend(s1, s2, f).second == s2Matches[..]
    ensures s1Matches[i] == found
    ensures forall m :: 0 <= m < |s1| && m != i ==> s1Matches[m] == old(s1Matches[m])
  {
    var matchDist := MaxInt(MaxInt(|s1|, |s2|) / 2 - 1, 0);
    var start := MaxInt(0, i - matchDist);
    var end := MinInt(i + matchDist + 1, |s2|);
    assert Partner(s1, s2, i, f.second) == Pick(s1[i], s2, f.second, start, end);
    hide Partner, MatchDist, MaxInt, MinInt;
    found := false;
    var j := start;
    while j < end
      invariant start <= j && !found
      invariant s1Matches[..] == old(s1Matches[..]) && s2Matches[..] == f.second
      invariant Partner(s1, s2, i, f.second) == Pick(s1[i], s2, f.second, j, end)
    {
      assert s2Matches[j] == f.second[j];
      if s2Matches[j] || s1[i] != s2[j] {
        j := j + 1;
        continue;
      }
      s1Matches[i] := true;
      s2Matches[j] := true;
      found := true;
      break;
    }
  }

  /** Second pass: walk the flagged characters of both strings in step. */
  method CountTranspositions(s1: string, s2: string, s1Matches: array<bool>, s2Matches: array<bool>) returns (t: nat)
    requires s1Matches.Length == |s1| && s2Matches.Length == |s2|
    requires |Picked(s1, s1Matches[..])| == |Picked(s2, s2Matches[..])|
    ensures t == Mismatches(Picked(s1, s1Matches[..]), Picked(s2, s2Matches[..]))
  {
    ghost var f1, f2 := s1Matches[..], s2Matches[..];
    assert Picked(s1[..0], f1[..0]) == [] && Picked(s2[..0], f2[..0]) == [] && Mismatches("", "") == 0;
    hide Picked, Mismatches, Walked;
    assert Walked(s1, f1, 0, s2, f2, 0, 0) by { EmptyWalk(s1, f1, s2, f2); }
    var k := 0;
    t := 0;
    var i := 0;
    while i < |s1|
      invariant 0 <= i <= |s1| && k <= |s2|
      invariant Walked(s1, f1, i, s2, f2, k, t)
    {
      if !s1Matches[i] {
        WalkPast(s1, f1, i, s2, f2, k, t);
        i := i + 1;
        continue;
      }
      SomeAhead(s1, f1, i, s2, f2, k, t);
      ghost var from := k;
      k := NextFlagged(s2, s2Matches, k);
      WalkBoth(s1, f1, i, s2, f2, from, k, t);
      if s1[i] != s2[k] {
        t := t + 1;
      }
      k := k + 1;
      i := i + 1;
    }
    WalkDone(s1, f1, s2, f2, k, t);
  }

  /** `t` mismatches between the flagged characters of the first `i` of s1 and as many of the first `k` of s2. */
  ghost predicate Walked(s1: string, f1: seq<bool>, i: nat, s2: string, f2: seq<bool>, k: nat, t: nat) {
    && |s1| == |f1| && |s2| == |f2| && i <= |s1| && k <= |s2|
    && |Picked(s1, f1)| == |Picked(s2, f2)|
    && |Picked(s1[..i], f1[..i])| == |Picked(s2[..k], f2[..k])|
    && t == Mismatches(Picked(s1[..i], f1[..i]), Picked(s2[..k], f2[..k]))
  }

  lemma EmptyWalk(s1: string, f1: seq<bool>, s2: string, f2: seq<bool>)
    requires |s1| == |f1| && |s2| == |f2| && |Picked(s1, f1)| == |Picked(s2, f2)|
    ensures Walked(s1, f1, 0, s2, f2, 0, 0)
  {
    assert Picked(s1[..0], f1[..0]) == [] && Picked(s2[..0], f2[..0]) == [];
  }

  lemma WalkPast(s1: string, f1: seq<bool>, i: nat, s2: string, f2: seq<bool>, k: nat, t: nat)
    requires Walked(s1, f1, i, s2, f2, k, t) && i < |s1| && !f1[i]
    ensures Walked(s1, f1, i + 1, s2, f2, k, t)
  {
    hide Picked, Mismatches;
    PickedStep(s1, f1, i);
    assert Picked(s1[..i], f1[..i]) + [] == Picked(s1[..i], f1[..i]);
  }

  lemma SomeAhead(s1: string, f1: seq<bool>, i: nat, s2: string, f2: seq<bool>, k: nat, t: nat)
    requires Walked(s1, f1, i, s2, f2, k, t) && i < |s1| && f1[i]
    ensures |Picked(s2[..k], f2[..k])| < |Picked(s2, f2)|
  {
    hide Picked, Mismatches;
    PickedStep(s1, f1, i);
    PickedPrefix(s1, f1, i + 1);
  }

  lemma WalkBoth(s1: string, f1: seq<bool>, i: nat, s2: string, f2: seq<bool>, j: nat, k: nat, t: nat)
    requires Walked(s1, f1, i, s2, f2, j, t) && i < |s1| && f1[i]
    requires j <= k < |s2| && f2[k] && Picked(s2[..k], f2[..k]) == Picked(s2[..j], f2[..j])
    ensures Walked(s1, f1, i + 1, s2, f2, k + 1, t + if s1[i] != s2[k] then 1 else 0)
  {
    hide Picked, Mismatches;
    PickedStep(s1, f1, i);
    PickedStep(s2, f2, k);
    MismatchesStep(Picked(s1[..i], f1[..i]), Picked(s2[..k], f2[..k]), s1[i], s2[k]);
  }

  lemma WalkDone(s1: string, f1: seq<bool>, s2: string, f2: seq<bool>, k: nat, t: nat)
    requires Walked(s1, f1, |s1|, s2, f2, k, t)
    ensures |Picked(s1, f1)| == |Picked(s2, f2)| && t == Mismatches(Picked(s1, f1), Picked(s2, f2))
  {
    hide Picked, Mismatches;
    assert s1[..|s1|] == s1 && f1[..|s1|] == f1;
    SamePicked(s2, f2, k);
  }

  /** The scan with no bounds check: some flagged character is still ahead, so it stops inside the array. */
  method NextFlagged(s: string, flags: array<bool>, from: nat) returns (k: nat)
    requires flags.Length == |s| && from <= |s|
    requires |Picked(s[..from], flags[..][..from])| < |Picked(s, flags[..])|
    ensures from <= k < |s| && flags[k]
    ensures Picked(s[..k], flags[..][..k]) == Picked(s[..from], flags[..][..from])
  {
    hide Picked;
    ghost var f := flags[..];
    k := from;
    NotAllSeen(s, f, k);
    while !flags[k]
      invariant from <= k < |s| && Picked(s[..k], f[..k]) == Picked(s[..from], f[..from])
      decreases |s| - k
    {
      PickedStep(s, f, k);
      NotAllSeen(s, f, k + 1);
      k := k + 1;
    }
  }

  /** While fewer characters were seen than flagged, the scan is not at the end. */
  lemma NotAllSeen(s: string, flags: seq<bool>, k: nat)
    requires |s| == |flags| && k <= |s|
    ensures |Picked(s[..k], flags[..k])| < |Picked(s, flags)| ==> k < |s|
  {
    assert k == |s| ==> s[..k] == s && flags[..k] == flags;
  }

  /** A prefix with as many flagged characters as the whole has the same flagged characters. */
  lemma {:induction false} SamePicked(s: string, flags: seq<bool>, k: nat)
    requires |s| == |flags| && k <= |s|
    requires |Picked(s[..k], flags[..k])| == |Picked(s, flags)|
    ensures Picked(s[..k], flags[..k]) == Picked(s, flags)
    decreases |s|
  {
    if k < |s| {
      var n := |s| - 1;
      assert s[..n][..k] == s[..k] && flags[..n][..k] == flags[..k];
      PickedPrefix(s[..n], flags[..n], k);
      SamePicked(s[..n], flags[..n], k);
    } else {
      assert s[..k] == s && flags[..k] == flags;
    }
  }

  // ── Jaro-Winkler ───────────────────────────────────────────────────────────

  /** Length of the common prefix, at most `limit`. */
  function CommonPrefix(s1: string, s2: string, limit: nat): (p: nat)
    ensures p <= limit && p <= |s1| && p <= |s2|
    ensures s1[..p] == s2[..p]
    ensures p < limit && p < |s1| && p < |s2| ==> s1[p] != s2[p]
  {
    if limit == 0 || s1 == [] || s2 == [] || s1[0] != s2[0] then 0
    else
      var p := CommonPrefix(s1[1..], s2[1..], limit - 1);
      assert s1[..p + 1] == [s1[0]] + s1[1..][..p] && s2[..p + 1] == [s2[0]] + s2[1..][..p];
      p + 1
  }

  function JaroWinkler(s1: string, s2: string): real {
    var jaro := Jaro(s1, s2);
    Boosted(jaro, CommonPrefix(s1, s2, 4))
  }

  function Boosted(jaro: real, prefix: nat): real { jaro + prefix as real * 0.1 * (1.0 - jaro) }

  method ComputeJaroWinkler(s1: string, s2: string) returns (score: real)
    ensures score == JaroWinkler(s1, s2)
  {
    hide Boosted, CommonPrefix, Jaro;
    var jaroScore := ComputeJaro(s1, s2);
    var prefix: nat := 0;
    var limit := MinInt(4, MinInt(|s1|, |s2|));
    var i := 0;
    while i < limit
      invariant 0 <= i <= limit && prefix == i
      invariant s1[..i] == s2[..i]
    {
      if s1[i] == s2[i] {
        prefix := prefix + 1;
      } else {
        break;
      }
      i := i + 1;
    }
    PrefixIsUnique(s1, s2, prefix, 4);
    score := Boosted(jaroScore, prefix);
  }

  lemma {:induction false} PrefixIsUnique(s1: string, s2: string, p: nat, limit: nat)
    requires p <= limit && p <= |s1| && p <= |s2| && s1[..p] == s2[..p]
    requires p < limit && p < |s1| && p < |s2| ==> s1[p] != s2[p]
    ensures p == CommonPrefix(s1, s2, limit)
  {
    if p > 0 {
      assert s1[..p][0] == s2[..p][0];
      assert s1[1..][..p - 1] == s1[..p][1..] && s2[1..][..p - 1] == s2[..p][1..];
      PrefixIsUnique(s1[1..], s2[1..], p - 1, limit - 1);
    }
  }

  /** Jaro-Winkler is never below Jaro, lies in [0, 1], and is 1 exactly for equal strings. */
  lemma JaroWinklerWithin(s1: string, s2: string)
    ensures Jaro(s1, s2) <= JaroWinkler(s1, s2) <= 1.0
    ensures 0.0 <= JaroWinkler(s1, s2)
    ensures JaroWinkler(s1, s2) == 1.0 <==> s1 == s2
  {
    hide Boosted, CommonPrefix, Jaro;
    JaroWithin(s1, s2);
    BoostWithin(Jaro(s1, s2), CommonPrefix(s1, s2, 4));
  }

  /** The common prefix, at most four long, takes off a tenth of the distance to 1 for each character. */
  lemma WinklerLaw(s1: string, s2: string)
    ensures var p := CommonPrefix(s1, s2, 4);
            10.0 * (1.0 - JaroWinkler(s1, s2)) == (10.0 - p as real) * (1.0 - Jaro(s1, s2))
  {
    hide Jaro, CommonPrefix;
    BoostLaw(Jaro(s1, s2), CommonPrefix(s1, s2, 4));
  }

  lemma BoostLaw(jaro: real, prefix: nat)
    ensures 10.0 * (1.0 - Boosted(jaro, prefix)) == (10.0 - prefix as real) * (1.0 - jaro)
  {
    var p, gap := prefix as real, 1.0 - jaro;
    assert p * 0.1 * gap * 10.0 == p * gap;
  }

  lemma BoostWithin(jaro: real, prefix: nat)
    requires 0.0 <= jaro <= 1.0 && prefix <= 4
    ensures jaro <= Boosted(jaro, prefix) <= 1.0
    ensures Boosted(jaro, prefix) == 1.0 <==> jaro == 1.0
  {
    if prefix == 0 {
    } else if prefix == 1 {
    } else if prefix == 2 {
    } else if prefix == 3 {
    } else {
      assert prefix == 4;
    }
  }
}
