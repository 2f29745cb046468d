/** src/common/name-match/name-match.service.ts: the token comparison of two names. */
module Names {
  import opened Jaro
  import opened Sums

  // ── Tokens ─────────────────────────────────────────────────────────────────

  /** The a-z letter a character lower-cases to, or nothing; U+0130 and U+212A are the two outside ASCII. */
  function LetterOf(c: char): string {
    if 'a' <= c <= 'z' then [c]
    else if 'A' <= c <= 'Z' then [(c as int + 32) as char]
    else if c == '\U{0130}' then "i"
    else if c == '\U{212A}' then "k"
    else ""
  }

  /** The characters \s matches. */
  predicate IsSpace(c: char) {
    || '\t' <= c <= '\r' || c == ' ' || c == '\U{00A0}' || c == '\U{1680}' || '\U{2000}' <= c <= '\U{200A}'
    || c == '\U{2028}' || c == '\U{2029}' || c == '\U{202F}' || c == '\U{205F}' || c == '\U{3000}' || c == '\U{FEFF}'
  }

  function OneWord(word: string): seq<string> { if word == [] then [] else [word] }

  /** The words of a name, the first of which starts with `word`: letters up to white space, the rest dropped. */
  function Words(name: string, word: string): seq<string>
    decreases |name|
  {
    if name == [] then OneWord(word)
    else if IsSpace(name[0]) then OneWord(word) + Words(name[1..], [])
    else Words(name[1..], word + LetterOf(name[0]))
  }

  function Tokenize(name: string): seq<string> { Words(name, []) }

  function Letters(name: string): string {
    if name == [] then [] else LetterOf(name[0]) + Letters(name[1..])
  }

  lemma {:induction false} SpacesSplitWords(a: string, space: char, b: string, word: string)
    requires IsSpace(space)
    ensures Words(a + [space] + b, word) == Words(a, word) + Words(b, [])
    decreases |a|
  {
    hide IsSpace, LetterOf;
    var name := a + [space] + b;
    if a == [] {
      assert name[0] == space && name[1..] == b;
    } else {
      assert name[0] == a[0] && name[1..] == a[1..] + [space] + b;
      if IsSpace(a[0]) {
        SpacesSplitWords(a[1..], space, b, []);
        assert Words(name, word) == OneWord(word) + (Words(a[1..], []) + Words(b, []));
      } else {
        SpacesSplitWords(a[1..], space, b, word + LetterOf(a[0]));
      }
    }
  }

  lemma {:induction false} LettersJoin(name: string, word: string)
    requires forall c :: c in name ==> !IsSpace(c)
    ensures Words(name, word) == OneWord(word + Letters(name))
    decreases |name|
  {
    hide IsSpace, LetterOf;
    if name == [] {
      assert word + Letters(name) == word;
    } else {
      assert name[0] in name && forall c :: c in name[1..] ==> c in name;
      LettersJoin(name[1..], word + LetterOf(name[0]));
      assert word + LetterOf(name[0]) + Letters(name[1..]) == word + Letters(name);
    }
  }

  /** White space separates tokens, and between white space all letters form one token, if there are any. */
  lemma TokensAreLetterRuns(a: string, space: char, b: string)
    requires IsSpace(space)
    ensures Tokenize(a + [space] + b) == Tokenize(a) + Tokenize(b)
    ensures (forall c :: c in a ==> !IsSpace(c)) ==> Tokenize(a) == OneWord(Letters(a))
  {
    SpacesSplitWords(a, space, b, []);
    if forall c :: c in a ==> !IsSpace(c) {
      LettersJoin(a, []);
      assert [] + Letters(a) == Letters(a);
    }
  }

  // ── Token comparison ───────────────────────────────────────────────────────

  /** The best Jaro-Winkler score of a token over a non-empty list. */
  function Best(token: string, target: seq<string>): real
    requires target != []
  {
    if |target| == 1 then JaroWinkler(token, target[0])
    else Max(JaroWinkler(token, target[0]), Best(token, target[1..]))
  }

  function SumOfBest(source: seq<string>, target: seq<string>): real
    requires target != []
  {
    if source == [] then 0.0 else Best(source[0], target) + SumOfBest(source[1..], target)
  }

  function ScoreTokens(source: seq<string>, target: seq<string>): real {
    if source == [] || target == [] then 0.0 else Ratio(SumOfBest(source, target), |source| as real)
  }

  function CompareTokens(a: seq<string>, b: seq<string>): real {
    if a == [] || b == [] then 0.0
    else
      var full := if |a| <= |b| then ScoreTokens(a, b) else ScoreTokens(b, a);
      if |a| < 2 || |b| < 2 then full
      else Max(full, ScoreTokens([a[0], a[|a| - 1]], [b[0], b[|b| - 1]]))
  }

  function Compare(a: string, b: string): real { CompareTokens(Tokenize(a), Tokenize(b)) }

  lemma {:induction false} BestWithin(token: string, target: seq<string>)
    requires target != []
    ensures 0.0 <= Best(token, target) <= 1.0
    ensures Best(token, target) == 1.0 <==> token in target
  {
    JaroWinklerWithin(token, target[0]);
    if |target| > 1 {
      BestWithin(token, target[1..]);
      assert token in target <==> token == target[0] || token in target[1..];
    }
  }

  predicate AllIn(source: seq<string>, target: seq<string>) { forall t :: t in source ==> t in target }

  lemma {:induction false} SumOfBestWithin(source: seq<string>, target: seq<string>)
    requires target != []
    ensures 0.0 <= SumOfBest(source, target) <= |source| as real
    ensures SumOfBest(source, target) == |source| as real <==> AllIn(source, target)
  {
    if source != [] {
      BestWithin(source[0], target);
      SumOfBestWithin(source[1..], target);
      assert AllIn(source, target) <==> source[0] in target && AllIn(source[1..], target);
    }
  }

  lemma ScoreTokensWithin(source: seq<string>, target: seq<string>)
    requires source != [] && target != []
    ensures 0.0 <= ScoreTokens(source, target) <= 1.0
    ensures ScoreTokens(source, target) == 1.0 <==> AllIn(source, target)
  {
    hide SumOfBest, Ratio;
    SumOfBestWithin(source, target);
    RatioWithin(SumOfBest(source, target), |source| as real);
  }

  /** The best score of a token is attained, and no target scores better. */
  lemma {:induction false} BestIsGreatest(token: string, target: seq<string>)
    requires target != []
    ensures exists i :: 0 <= i < |target| && Best(token, target) == JaroWinkler(token, target[i])
    ensures forall i :: 0 <= i < |target| ==> JaroWinkler(token, target[i]) <= Best(token, target)
  {
    hide JaroWinkler;
    if |target| == 1 {
      assert Best(token, target) == JaroWinkler(token, target[0]);
    } else {
      var rest := target[1..];
      BestIsGreatest(token, rest);
      var k :| 0 <= k < |rest| && Best(token, rest) == JaroWinkler(token, rest[k]);
      assert rest[k] == target[k + 1];
      assert forall i :: 0 < i < |target| ==> target[i] == rest[i - 1];
      if JaroWinkler(token, target[0]) >= Best(token, rest) {
        assert Best(token, target) == JaroWinkler(token, target[0]);
      } else {
        assert Best(token, target) == JaroWinkler(token, target[k + 1]);
      }
    }
  }

  function BestOver(target: seq<string>): string -> real
    requires target != []
  {
    (token: string) => Best(token, target)
  }

  lemma {:induction false} SumOfBestIsSum(source: seq<string>, target: seq<string>)
    requires target != []
    ensures SumOfBest(source, target) == Sum(BestOver(target), source)
  {
    if source != [] { SumOfBestIsSum(source[1..], target); }
  }

  /** The score of two token lists is the mean, over the source, of the best scores; without tokens it is 0. */
  lemma ScoreIsMeanOfBest(source: seq<string>, target: seq<string>)
    ensures source != [] && target != [] ==>
              ScoreTokens(source, target) * |source| as real == Sum(BestOver(target), source)
    ensures source == [] || target == [] ==> ScoreTokens(source, target) == 0.0
  {
    hide SumOfBest, Ratio, Sum, Best, BestOver;
    if source != [] && target != [] {
      SumOfBestIsSum(source, target);
      RatioTimes(SumOfBest(source, target), |source| as real);
    }
  }

  /** First and last token. */
  function Ends(tokens: seq<string>): seq<string>
    requires tokens != []
  {
    [tokens[0], tokens[|tokens| - 1]]
  }

  /** The comparison is the greater of the score of the shorter name against the longer and the first-and-last one. */
  lemma CompareIsGreater(a: string, b: string)
    ensures var s, t := Tokenize(a), Tokenize(b);
            && (s == [] || t == [] ==> Compare(a, b) == 0.0)
            && (s != [] && t != [] ==>
                  var full := if |s| <= |t| then ScoreTokens(s, t) else ScoreTokens(t, s);
                  && Compare(a, b) >= full
                  && (|s| < 2 || |t| < 2 ==> Compare(a, b) == full)
                  && (|s| >= 2 && |t| >= 2 ==>
                        Compare(a, b) >= ScoreTokens(Ends(s), Ends(t))
                        && Compare(a, b) in {full, ScoreTokens(Ends(s), Ends(t))}))
  {
    hide Tokenize, ScoreTokens;
  }

  predicate FullMatch(a: seq<string>, b: seq<string>) {
    && a != [] && b != []
    && (|| (if |a| <= |b| then AllIn(a, b) else AllIn(b, a))
        || (&& |a| >= 2 && |b| >= 2
            && a[0] in [b[0], b[|b| - 1]]
            && a[|a| - 1] in [b[0], b[|b| - 1]]))
  }

  /**
   * The comparison is 1 exactly when every token of the shorter name occurs in the longer, or both names have at
   * least two tokens and a's first and last tokens both occur among b's first and last; otherwise it is in [0, 1).
   */
  lemma CompareIsOneExactlyWhen(a: string, b: string)
    ensures 0.0 <= Compare(a, b) <= 1.0
    ensures Compare(a, b) == 1.0 <==> FullMatch(Tokenize(a), Tokenize(b))
  {
    hide Tokenize, ScoreTokens;
    var s, t := Tokenize(a), Tokenize(b);
    if s != [] && t != [] {
      if |s| <= |t| { ScoreTokensWithin(s, t); } else { ScoreTokensWithin(t, s); }
      if |s| >= 2 && |t| >= 2 {
        ScoreTokensWithin([s[0], s[|s| - 1]], [t[0], t[|t| - 1]]);
        assert AllIn([s[0], s[|s| - 1]], [t[0], t[|t| - 1]]) <==>
          s[0] in [t[0], t[|t| - 1]] && s[|s| - 1] in [t[0], t[|t| - 1]];
      }
    }
  }
}
