/** The bot's main package: the classifier with fixed distance thresholds,
    the contributor list built from the contributor, admin and alumni roles,
    and the repeated-content spam check that looks at a user once more than
    three of their messages are stored. */
module Bot {
  import opened Wrappers
  import opened Text
  import opened StringDistance
  import opened Ordering
  import opened Discord
  import opened Matcher
  import Contributors
  import DuplicateSpam
  import Spellings
  import Names

  /** Words a name is compared against, by containment and by distance. */
  const SusWords: seq<string> := ["support", "juicebox", "announcement", "airdrop", "admin", "giveaway"]

  /** The megaphone emoji U+1F4E2 and U+1F4E3, matched by containment only. */
  const ContainsWords: seq<string> := ["\U{1F4E2}", "\U{1F4E3}"]

  /** Roles whose holders' names go into the contributor list. */
  const ContributorRoles: set<string> := {ContributorRoleId, AdminRoleId, AlumniRoleId}

  /** More stored messages than this and a repeat gets the author muted. */
  const SpamThreshold: nat := 3

  /** An alumnus's non-empty name goes into the contributor list. */
  lemma AlumniListed(members: seq<Member>, i: nat)
    requires i < |members| && AlumniRoleId in members[i].roles
    requires Lower(members[i].user.username) != ""
    ensures Lower(members[i].user.username) in Contributors.BuildOnce(None, members, ContributorRoles)
  {
    assert Contributors.Contributes(members[i], ContributorRoles, Lower(members[i].user.username));
  }

  /** `isSus`: suspicious exactly when the lower-cased name contains an emoji,
      contains or is within distance 2 of a suspicious word, or contains or is
      within distance 1 of a contributor name. The reported word is that of
      the first check that fires. */
  function IsSus(raw: string, contributors: seq<string>): (v: Verdict)
    ensures var norm := Lower(raw);
      v.suspicious <==>
        || (exists w :: w in ContainsWords && Contains(norm, w))
        || (exists w :: w in SusWords && (Contains(norm, w) || Levenshtein(norm, w) <= 2))
        || (exists c :: c in contributors && (Contains(norm, c) || Levenshtein(norm, c) <= 1))
    ensures v.suspicious ==> exists k ::
      && FirstFiring(FixedThresholds, Lower(raw), Rules(ContainsWords, SusWords, contributors), k)
      && v.matched == Rules(ContainsWords, SusWords, contributors)[k].word
    ensures !v.suspicious ==> v.matched == ""
  {
    SomeRuleFires(FixedThresholds, Lower(raw), ContainsWords, SusWords, contributors);
    Classify(FixedThresholds, raw, ContainsWords, SusWords, contributors)
  }

  /** `isSus` as its test table expects it: the same scan and fixed
      thresholds, with the eleven suspicious words of the `names` package,
      which include "uniswap" and "reward". */
  function IsSusIntended(raw: string, contributors: seq<string>): (v: Verdict)
    ensures var norm := Lower(raw);
      v.suspicious <==>
        || (exists w :: w in ContainsWords && Contains(norm, w))
        || (exists w :: w in Names.SusWords && (Contains(norm, w) || Levenshtein(norm, w) <= 2))
        || (exists c :: c in contributors && (Contains(norm, c) || Levenshtein(norm, c) <= 1))
    ensures v.suspicious ==> exists k ::
      && FirstFiring(FixedThresholds, Lower(raw), Rules(ContainsWords, Names.SusWords, contributors), k)
      && v.matched == Rules(ContainsWords, Names.SusWords, contributors)[k].word
    ensures !v.suspicious ==> v.matched == ""
  {
    SomeRuleFires(FixedThresholds, Lower(raw), ContainsWords, Names.SusWords, contributors);
    Classify(FixedThresholds, raw, ContainsWords, Names.SusWords, contributors)
  }

  /** The correction only adds words: every name flagged as written is
      flagged by it too. */
  lemma IntendedFlagsMore(raw: string, contributors: seq<string>)
    ensures IsSus(raw, contributors).suspicious ==> IsSusIntended(raw, contributors).suspicious
  {
    var norm := Lower(raw);
    if exists w :: w in SusWords && (Contains(norm, w) || Levenshtein(norm, w) <= 2) {
      var w :| w in SusWords && (Contains(norm, w) || Levenshtein(norm, w) <= 2);
      assert w in Names.SusWords;
    }
  }

  /** `checkSpam`: the shared tracker with a threshold of three. */
  function CheckSpam(t: DuplicateSpam.Tracker, m: MessageCreate): (s: DuplicateSpam.Step)
    ensures s.mute <==>
      && DuplicateSpam.Screened(m)
      && m.author.id in t.recent
      && |t.recent[m.author.id].msgs| > 3
      && HasDuplicate(t.recent[m.author.id].msgs)
    ensures DuplicateSpam.Valid(t) ==> DuplicateSpam.Valid(s.tracker)
  {
    DuplicateSpam.Observe(SpamThreshold, t, m)
  }

  /** Nothing fires on a name with no emoji and no suspicious word near it
      when there are no contributor names. */
  lemma NoWordNoFlag(raw: string)
    requires forall w :: w in ContainsWords ==> !Contains(Lower(raw), w)
    requires forall w :: w in SusWords ==> !Contains(Lower(raw), w) && Levenshtein(Lower(raw), w) > 2
    ensures !IsSus(raw, []).suspicious
  {
  }

  /** The suspicious words are already in lower case. */
  lemma SusWordsLower()
    ensures forall w :: w in SusWords ==> Lower(w) == w
  {
    assert Lower("support") == "support";
    assert Lower("juicebox") == "juicebox";
    assert Lower("announcement") == "announcement";
    assert Lower("airdrop") == "airdrop";
    assert Lower("admin") == "admin";
    assert Lower("giveaway") == "giveaway";
  }

  /** Nothing fires on a name made of runes of `pool` when the pool lacks a
      rune of each emoji and no suspicious word fires. */
  lemma PoolPasses(raw: string, pool: set<char>)
    requires RunesFrom(raw, pool)
    requires '\U{1F4E2}' !in pool && '\U{1F4E3}' !in pool
    requires forall w :: w in SusWords[..3] ==> !Contains(Lower(raw), w) && Levenshtein(Lower(raw), w) > 2
    requires forall w :: w in SusWords[3..] ==> !Contains(Lower(raw), w) && Levenshtein(Lower(raw), w) > 2
    ensures !IsSus(raw, []).suspicious
  {
    MissingRuneRulesOutContains(Lower(raw), ContainsWords[0], 0);
    MissingRuneRulesOutContains(Lower(raw), ContainsWords[1], 0);
    assert SusWords == SusWords[..3] + SusWords[3..];
    NoWordNoFlag(raw);
  }

  /** Neither "support", "juicebox" nor "announcement" fires on a name made of
      runes of `pool` when the pool lacks a rune of each, and each needs more
      than two runes the pool lacks or is more than two runes shorter than the
      name. */
  lemma FirstWordsMissed(raw: string, pool: set<char>, ks: nat, kn: nat)
    requires RunesFrom(raw, pool)
    requires ks < 7 && "support"[ks] !in pool && (Outside("support", 7, pool) > 2 || |raw| > 9)
    requires 'j' !in pool && (Outside("juicebox", 8, pool) > 2 || |raw| > 10)
    requires kn < 12 && "announcement"[kn] !in pool && (Outside("announcement", 12, pool) > 2 || |raw| > 14)
    ensures forall w :: w in SusWords[..3] ==> !Contains(Lower(raw), w) && Levenshtein(Lower(raw), w) > 2
  {
    SusWordsLower();
    WordMissed(raw, "support", ks, pool, 2);
    WordMissed(raw, "juicebox", 0, pool, 2);
    WordMissed(raw, "announcement", kn, pool, 2);
  }

  /** Likewise for "airdrop", "admin" and "giveaway". */
  lemma LastWordsMissed(raw: string, pool: set<char>, kd: nat, kr: nat)
    requires RunesFrom(raw, pool)
    requires kr < 7 && "airdrop"[kr] !in pool && (Outside("airdrop", 7, pool) > 2 || |raw| > 9)
    requires kd < 5 && "admin"[kd] !in pool && (Outside("admin", 5, pool) > 2 || |raw| > 7)
    requires 'g' !in pool && (Outside("giveaway", 8, pool) > 2 || |raw| > 10)
    ensures forall w :: w in SusWords[3..] ==> !Contains(Lower(raw), w) && Levenshtein(Lower(raw), w) > 2
  {
    SusWordsLower();
    WordMissed(raw, "airdrop", kr, pool, 2);
    WordMissed(raw, "admin", kd, pool, 2);
    WordMissed(raw, "giveaway", 0, pool, 2);
  }

  /** The test table's "" row. */
  lemma EmptyNamePasses()
    ensures !IsSus("", []).suspicious
  {
    FirstWordsMissed("", {}, 0, 0);
    LastWordsMissed("", {}, 0, 0);
    PoolPasses("", {});
  }

  /** The test table's "Hello" row, for every name spelled with the runes of
      "hello" in either case. */
  lemma HelloPasses(raw: string)
    requires RunesFrom(raw, {'h', 'e', 'l', 'o'})
    ensures !IsSus(raw, []).suspicious
  {
    HelloPassesFirst(raw);
    HelloPassesLast(raw);
    PoolPasses(raw, {'h', 'e', 'l', 'o'});
  }

  lemma HelloPassesFirst(raw: string)
    requires RunesFrom(raw, {'h', 'e', 'l', 'o'})
    ensures forall w :: w in SusWords[..3] ==> !Contains(Lower(raw), w) && Levenshtein(Lower(raw), w) > 2
  {
    FirstWordsMissed(raw, {'h', 'e', 'l', 'o'}, 0, 0);
  }

  lemma HelloPassesLast(raw: string)
    requires RunesFrom(raw, {'h', 'e', 'l', 'o'})
    ensures forall w :: w in SusWords[3..] ==> !Contains(Lower(raw), w) && Levenshtein(Lower(raw), w) > 2
  {
    LastWordsMissed(raw, {'h', 'e', 'l', 'o'}, 0, 0);
  }

  /** The test table's "CLUCKER" row, for every name spelled with the runes
      of "clucker" in either case. */
  lemma CluckerPasses(raw: string)
    requires RunesFrom(raw, {'c', 'l', 'u', 'k', 'e', 'r'})
    ensures !IsSus(raw, []).suspicious
  {
    CluckerPassesFirst(raw);
    CluckerPassesLast(raw);
    PoolPasses(raw, {'c', 'l', 'u', 'k', 'e', 'r'});
  }

  lemma CluckerPassesFirst(raw: string)
    requires RunesFrom(raw, {'c', 'l', 'u', 'k', 'e', 'r'})
    ensures forall w :: w in SusWords[..3] ==> !Contains(Lower(raw), w) && Levenshtein(Lower(raw), w) > 2
  {
    FirstWordsMissed(raw, {'c', 'l', 'u', 'k', 'e', 'r'}, 0, 0);
  }

  lemma CluckerPassesLast(raw: string)
    requires RunesFrom(raw, {'c', 'l', 'u', 'k', 'e', 'r'})
    ensures forall w :: w in SusWords[3..] ==> !Contains(Lower(raw), w) && Levenshtein(Lower(raw), w) > 2
  {
    LastWordsMissed(raw, {'c', 'l', 'u', 'k', 'e', 'r'}, 0, 0);
  }

  /** The test table expects "Uniswap Reward" to be flagged, but "uniswap" is
      not one of this package's suspicious words: no 14-rune name spelled with
      its runes is flagged. */
  lemma UniswapRewardPasses(raw: string)
    requires |raw| == 14 && RunesFrom(raw, {'u', 'n', 'i', 's', 'w', 'a', 'p', ' ', 'r', 'e', 'd'})
    ensures !IsSus(raw, []).suspicious
  {
    UniswapRewardPassesFirst(raw);
    UniswapRewardPassesLast(raw);
    PoolPasses(raw, {'u', 'n', 'i', 's', 'w', 'a', 'p', ' ', 'r', 'e', 'd'});
  }

  lemma UniswapRewardPassesFirst(raw: string)
    requires |raw| == 14 && RunesFrom(raw, {'u', 'n', 'i', 's', 'w', 'a', 'p', ' ', 'r', 'e', 'd'})
    ensures forall w :: w in SusWords[..3] ==> !Contains(Lower(raw), w) && Levenshtein(Lower(raw), w) > 2
  {
    FirstWordsMissed(raw, {'u', 'n', 'i', 's', 'w', 'a', 'p', ' ', 'r', 'e', 'd'}, 4, 3);
  }

  lemma UniswapRewardPassesLast(raw: string)
    requires |raw| == 14 && RunesFrom(raw, {'u', 'n', 'i', 's', 'w', 'a', 'p', ' ', 'r', 'e', 'd'})
    ensures forall w :: w in SusWords[3..] ==> !Contains(Lower(raw), w) && Levenshtein(Lower(raw), w) > 2
  {
    LastWordsMissed(raw, {'u', 'n', 'i', 's', 'w', 'a', 'p', ' ', 'r', 'e', 'd'}, 2, 5);
  }

  /** Likewise for the table's "Uniswep" row. */
  lemma UniswepPasses(raw: string)
    requires RunesFrom(raw, {'u', 'n', 'i', 's', 'w', 'e', 'p'})
    ensures !IsSus(raw, []).suspicious
  {
    UniswepPassesFirst(raw);
    UniswepPassesLast(raw);
    PoolPasses(raw, {'u', 'n', 'i', 's', 'w', 'e', 'p'});
  }

  lemma UniswepPassesFirst(raw: string)
    requires RunesFrom(raw, {'u', 'n', 'i', 's', 'w', 'e', 'p'})
    ensures forall w :: w in SusWords[..3] ==> !Contains(Lower(raw), w) && Levenshtein(Lower(raw), w) > 2
  {
    FirstWordsMissed(raw, {'u', 'n', 'i', 's', 'w', 'e', 'p'}, 4, 0);
  }

  lemma UniswepPassesLast(raw: string)
    requires RunesFrom(raw, {'u', 'n', 'i', 's', 'w', 'e', 'p'})
    ensures forall w :: w in SusWords[3..] ==> !Contains(Lower(raw), w) && Levenshtein(Lower(raw), w) > 2
  {
    LastWordsMissed(raw, {'u', 'n', 'i', 's', 'w', 'e', 'p'}, 0, 0);
  }

  /** A name within distance 2 of a suspicious word is flagged. */
  lemma NearWordFlagged(raw: string, w: string)
    requires w in SusWords && Levenshtein(raw, w) <= 2
    ensures IsSus(raw, []).suspicious
  {
    LowerIdempotent(raw);
  }

  /** The test table's "Uniswap Reward" row, flagged by the correction. */
  lemma UniswapRewardFlaggedIntended()
    ensures IsSusIntended("Uniswap Reward", []).suspicious
  {
    UniswapListed();
    UniswapRewardLower();
    assert OccursAt("uniswap reward", "uniswap", 0);
  }

  lemma UniswapListed()
    ensures "uniswap" in Names.SusWords
  {
    assert Names.SusWords[7] == "uniswap";
  }

  lemma UniswapRewardLower()
    ensures Lower("Uniswap Reward") == "uniswap reward"
  {
  }

  /** The test table's "Uniswep" row, flagged by the correction. */
  lemma UniswepFlaggedIntended()
    ensures IsSusIntended("Uniswep", []).suspicious
  {
    UniswapListed();
    UniswepNear();
    NearWordFlaggedIntended("Uniswep", "uniswap");
  }

  /** A name within distance 2 of one of the eleven words is flagged by the
      correction. */
  lemma NearWordFlaggedIntended(raw: string, w: string)
    requires w in Names.SusWords && Levenshtein(Lower(raw), w) <= 2
    ensures IsSusIntended(raw, []).suspicious
  {
  }

  /** "Uniswep" lies within one edit of "uniswap" after lower-casing. */
  lemma UniswepNear()
    ensures Levenshtein(Lower("Uniswep"), "uniswap") <= 1
  {
    assert Lower("Uniswep") == "uniswep";
    assert Lower("uniswep") == "uniswep" && Lower("uniswap") == "uniswap";
    Spellings.UniswepNearUniswap();
  }

  /** The test table's "Anoncement" row. */
  lemma AnoncementFlagged()
    ensures IsSus("Anoncement", []).suspicious
  {
    assert Lower("Anoncement") == "anoncement";
    assert Lower("announcement") == "announcement";
    Spellings.AnoncementNearAnnouncement();
    NearWordFlagged("Anoncement", "announcement");
  }

  /** The test table's "HelloANNOUNCEMENT" row. */
  lemma ShoutFlagged()
    ensures IsSus("HelloANNOUNCEMENT", []).suspicious
  {
    var norm := Lower("HelloANNOUNCEMENT");
    assert norm == "helloannouncement";
    assert OccursAt(norm, "announcement", 5);
    assert SusWords[2] == "announcement";
  }
}
