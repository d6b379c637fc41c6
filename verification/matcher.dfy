/** The suspicious-name classifier `isSus`: it lower-cases the name, then
    scans the short tokens, the suspicious words and the contributor names in
    that order and reports the first that fires. The two versions of the
    classifier differ only in when a word or a name fires; a `Policy` selects
    between them. */
module Matcher {
  import opened Wrappers
  import opened Text
  import opened StringDistance

  /** `FixedThresholds` is the classifier of the bot's main package (distance
      at most 2 to a suspicious word, at most 1 to a contributor name, and
      substring containment for both); `LengthScaled` is the one of the
      `names` package (distance within a quarter of the name's byte length,
      only for names longer than four bytes, and no containment test for
      contributor names). */
  datatype Policy = FixedThresholds | LengthScaled

  /** One check of the scan: a token matched by containment only, a
      suspicious word, or a contributor name. */
  datatype Rule = Token(word: string) | Term(word: string) | Contributor(word: string)

  /** The `(is, match)` pair `isSus` returns. */
  datatype Verdict = Verdict(suspicious: bool, matched: string)

  /** The length-scaled closeness test: `len(norm) > 4 && levenshtein(norm, w) <= len(norm)/4`,
      with Go's `len` counting bytes. */
  predicate CloseForLength(norm: string, w: string) {
    ByteLen(norm) > 4 && Levenshtein(norm, w) <= ByteLen(norm) / 4
  }

  /** Whether one check fires on the lower-cased name. */
  predicate Fires(p: Policy, norm: string, rule: Rule) {
    match rule
    case Token(w) => Contains(norm, w)
    case Term(w) =>
      Contains(norm, w) || (if p == FixedThresholds then Levenshtein(norm, w) <= 2 else CloseForLength(norm, w))
    case Contributor(w) =>
      if p == FixedThresholds then Contains(norm, w) || Levenshtein(norm, w) <= 1 else CloseForLength(norm, w)
  }

  function Tokens(ws: seq<string>): (rs: seq<Rule>)
    ensures |rs| == |ws| && forall i :: 0 <= i < |ws| ==> rs[i] == Token(ws[i])
  {
    seq(|ws|, i requires 0 <= i < |ws| => Token(ws[i]))
  }

  function Terms(ws: seq<string>): (rs: seq<Rule>)
    ensures |rs| == |ws| && forall i :: 0 <= i < |ws| ==> rs[i] == Term(ws[i])
  {
    seq(|ws|, i requires 0 <= i < |ws| => Term(ws[i]))
  }

  function Contributors(ws: seq<string>): (rs: seq<Rule>)
    ensures |rs| == |ws| && forall i :: 0 <= i < |ws| ==> rs[i] == Contributor(ws[i])
  {
    seq(|ws|, i requires 0 <= i < |ws| => Contributor(ws[i]))
  }

  /** All checks in scan order: tokens, then suspicious words, then contributor names. */
  function Rules(tokens: seq<string>, terms: seq<string>, contributors: seq<string>): seq<Rule> {
    Tokens(tokens) + Terms(terms) + Contributors(contributors)
  }

  /** Rule k fires and no earlier rule does. */
  predicate FirstFiring(p: Policy, norm: string, rules: seq<Rule>, k: int) {
    && 0 <= k < |rules|
    && Fires(p, norm, rules[k])
    && forall j :: 0 <= j < k ==> !Fires(p, norm, rules[j])
  }

  predicate NoneFires(p: Policy, norm: string, rules: seq<Rule>) {
    forall k :: 0 <= k < |rules| ==> !Fires(p, norm, rules[k])
  }

  /** One `for _, w := range ...` loop of `isSus`: the index of the first rule
      that fires, if any. */
  function FindFirst(p: Policy, norm: string, rules: seq<Rule>): (r: Option<nat>)
    ensures r.Some? ==> FirstFiring(p, norm, rules, r.value)
    ensures r.None? <==> NoneFires(p, norm, rules)
  {
    if |rules| == 0 then None
    else if Fires(p, norm, rules[0]) then Some(0)
    else
      match FindFirst(p, norm, rules[1..])
      case None => None
      case Some(k) => Some(k + 1)
  }

  /** A first hit in a prefix is a first hit of the whole list. */
  lemma FirstFiringPrefix(p: Policy, norm: string, a: seq<Rule>, b: seq<Rule>, k: int)
    requires FirstFiring(p, norm, a, k)
    ensures FirstFiring(p, norm, a + b, k)
  {
  }

  /** When nothing in a fires, the first hit of b is the first hit of a + b,
      shifted by |a|. */
  lemma FirstFiringAfter(p: Policy, norm: string, a: seq<Rule>, b: seq<Rule>, k: int)
    requires NoneFires(p, norm, a) && FirstFiring(p, norm, b, k)
    ensures FirstFiring(p, norm, a + b, |a| + k)
  {
    var ab := a + b;
    forall j | 0 <= j < |a| + k
      ensures !Fires(p, norm, ab[j])
    {
      if j < |a| {
        assert ab[j] == a[j];
      } else {
        assert ab[j] == b[j - |a|];
      }
    }
  }

  lemma NoneFiresConcat(p: Policy, norm: string, a: seq<Rule>, b: seq<Rule>)
    requires NoneFires(p, norm, a) && NoneFires(p, norm, b)
    ensures NoneFires(p, norm, a + b)
  {
    var ab := a + b;
    forall k | 0 <= k < |ab|
      ensures !Fires(p, norm, ab[k])
    {
      if k < |a| {
        assert ab[k] == a[k];
      } else {
        assert ab[k] == b[k - |a|];
      }
    }
  }

  /** Some check fires exactly when some token, some suspicious word or some
      contributor name fires. */
  lemma SomeRuleFires(p: Policy, norm: string, tokens: seq<string>, terms: seq<string>, contributors: seq<string>)
    ensures !NoneFires(p, norm, Rules(tokens, terms, contributors)) <==>
      || (exists w :: w in tokens && Fires(p, norm, Token(w)))
      || (exists w :: w in terms && Fires(p, norm, Term(w)))
      || (exists w :: w in contributors && Fires(p, norm, Contributor(w)))
  {
    if !NoneFires(p, norm, Rules(tokens, terms, contributors)) {
      FiringRuleIsListed(p, norm, tokens, terms, contributors);
    }
    ListedRuleFires(p, norm, tokens, terms, contributors);
  }

  /** The rule that fires comes from one of the three lists. */
  lemma FiringRuleIsListed(p: Policy, norm: string, tokens: seq<string>, terms: seq<string>, contributors: seq<string>)
    requires !NoneFires(p, norm, Rules(tokens, terms, contributors))
    ensures
      || (exists w :: w in tokens && Fires(p, norm, Token(w)))
      || (exists w :: w in terms && Fires(p, norm, Term(w)))
      || (exists w :: w in contributors && Fires(p, norm, Contributor(w)))
  {
    var ts, ws, cs := Tokens(tokens), Terms(terms), Contributors(contributors);
    var rules := ts + ws + cs;
    assert Rules(tokens, terms, contributors) == rules;
    var k :| 0 <= k < |rules| && Fires(p, norm, rules[k]);
    if k < |ts| {
      assert rules[k] == Token(tokens[k]);
    } else if k < |ts| + |ws| {
      assert rules[k] == Term(terms[k - |ts|]);
    } else {
      assert rules[k] == Contributor(contributors[k - |ts| - |ws|]);
    }
  }

  /** A token, word or contributor name that fires makes its rule fire. */
  lemma ListedRuleFires(p: Policy, norm: string, tokens: seq<string>, terms: seq<string>, contributors: seq<string>)
    ensures
      || (exists w :: w in tokens && Fires(p, norm, Token(w)))
      || (exists w :: w in terms && Fires(p, norm, Term(w)))
      || (exists w :: w in contributors && Fires(p, norm, Contributor(w)))
      ==> !NoneFires(p, norm, Rules(tokens, terms, contributors))
  {
    if exists w :: w in tokens && Fires(p, norm, Token(w)) {
      var w :| w in tokens && Fires(p, norm, Token(w));
      ListedRuleFiresAt(p, norm, tokens, terms, contributors, Token(w));
    } else if exists w :: w in terms && Fires(p, norm, Term(w)) {
      var w :| w in terms && Fires(p, norm, Term(w));
      ListedRuleFiresAt(p, norm, tokens, terms, contributors, Term(w));
    } else if exists w :: w in contributors && Fires(p, norm, Contributor(w)) {
      var w :| w in contributors && Fires(p, norm, Contributor(w));
      ListedRuleFiresAt(p, norm, tokens, terms, contributors, Contributor(w));
    }
  }

  /** Each listed word has its rule among the checks. */
  lemma ListedRuleFiresAt(p: Policy, norm: string, tokens: seq<string>, terms: seq<string>, contributors: seq<string>, r: Rule)
    requires r.Token? ==> r.word in tokens
    requires r.Term? ==> r.word in terms
    requires r.Contributor? ==> r.word in contributors
    requires Fires(p, norm, r)
    ensures !NoneFires(p, norm, Rules(tokens, terms, contributors))
  {
    var ts, ws, cs := Tokens(tokens), Terms(terms), Contributors(contributors);
    var rules := ts + ws + cs;
    assert Rules(tokens, terms, contributors) == rules;
    match r
    case Token(w) =>
      var i :| 0 <= i < |tokens| && tokens[i] == w;
      assert rules[i] == r;
    case Term(w) =>
      var i :| 0 <= i < |terms| && terms[i] == w;
      assert rules[|ts| + i] == r;
    case Contributor(w) =>
      var i :| 0 <= i < |contributors| && contributors[i] == w;
      assert rules[|ts| + |ws| + i] == r;
  }

  /** `isSus`: the three loops in order, each returning on its first hit. The
      verdict is suspicious exactly when some check fires, and then it names
      the word of the first check that fires in the order tokens, suspicious
      words, contributor names. */
  function Classify(p: Policy, raw: string, tokens: seq<string>, terms: seq<string>, contributors: seq<string>): (v: Verdict)
    ensures var norm := Lower(raw); var rules := Rules(tokens, terms, contributors);
      && (v.suspicious <==> !NoneFires(p, norm, rules))
      && (v.suspicious ==> exists k :: FirstFiring(p, norm, rules, k) && v.matched == rules[k].word)
      && (!v.suspicious ==> v.matched == "")
  {
    var norm := Lower(raw);
    var ts, ws, cs := Tokens(tokens), Terms(terms), Contributors(contributors);
    assert Rules(tokens, terms, contributors) == ts + ws + cs;
    match FindFirst(p, norm, ts)
    case Some(k) =>
      FirstFiringPrefix(p, norm, ts, ws, k);
      FirstFiringPrefix(p, norm, ts + ws, cs, k);
      Verdict(true, tokens[k])
    case None =>
      match FindFirst(p, norm, ws)
      case Some(k) =>
        FirstFiringAfter(p, norm, ts, ws, k);
        FirstFiringPrefix(p, norm, ts + ws, cs, |ts| + k);
        Verdict(true, terms[k])
      case None =>
        NoneFiresConcat(p, norm, ts, ws);
        match FindFirst(p, norm, cs)
        case Some(k) =>
          FirstFiringAfter(p, norm, ts + ws, cs, k);
          Verdict(true, contributors[k])
        case None =>
          NoneFiresConcat(p, norm, ts + ws, cs);
          Verdict(false, "")
  }
}
