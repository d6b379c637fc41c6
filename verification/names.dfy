/** The `names` package: the classifier whose distance threshold scales with
    the byte length of the name, the contributor list built from the
    contributor and admin roles only, and the repeated-content spam check that
    looks at a user once more than two of their messages are stored. */
module Names {
  import opened Wrappers
  import opened Text
  import opened StringDistance
  import opened Ordering
  import opened Discord
  import opened Matcher
  import Contributors
  import DuplicateSpam
  import Spellings

  /** Words a name is compared against, by containment and by distance. */
  const SusWords: seq<string> :=
    ["support", "juicebox", "announcement", "airdrop", "admin", "giveaway",
     "opensea", "uniswap", "reward", "ticket", "metamask"]

  /** The package's containment tokens as its source spells them: the UTF-8
      bytes of the emoji U+1F4E2, U+1F4E3 and U+1F4E1 read one byte per
      Windows-1252 character, giving U+00F0 U+0178 U+201C followed by
      U+00A2, U+00A3 or U+00A1. */
  const ContainsWords: seq<string> :=
    ["\U{00F0}\U{0178}\U{201C}\U{00A2}", "\U{00F0}\U{0178}\U{201C}\U{00A3}", "\U{00F0}\U{0178}\U{201C}\U{00A1}"]

  /** The tokens the comment beside them describes: the emoji themselves. */
  const IntendedContainsWords: seq<string> := ["\U{1F4E2}", "\U{1F4E3}", "\U{1F4E1}"]

  /** Roles whose holders' names go into the contributor list (alumni are not
      among them here). */
  const ContributorRoles: set<string> := {ContributorRoleId, AdminRoleId}

  /** More stored messages than this and a repeat gets the author muted. */
  const SpamThreshold: nat := 2

  /** A name that only members without the contributor and admin roles
      carry stays out of the list, alumni included. */
  lemma AlumniLeftOut(members: seq<Member>, n: string)
    requires forall i :: 0 <= i < |members| && HoldsAnyRole(members[i].roles, ContributorRoles) ==>
      n != Lower(members[i].user.username) && n != Lower(members[i].nick) && n != Lower(members[i].user.globalName)
    ensures n !in Contributors.BuildOnce(None, members, ContributorRoles)
  {
  }

  /** The package's `isSus` with the tokens as written. Suspicious exactly
      when the lower-cased name contains a token; contains a suspicious word
      or, being longer than four bytes, lies within a quarter of its byte
      length of one; or, being longer than four bytes, lies within a quarter of
      its byte length of a contributor name. The reported word is that of the
      first check that fires. */
  function IsSus(raw: string, contributors: seq<string>): (v: Verdict)
    ensures var norm := Lower(raw);
      v.suspicious <==>
        || (exists w :: w in ContainsWords && Contains(norm, w))
        || (exists w :: w in SusWords && (Contains(norm, w) || CloseForLength(norm, w)))
        || (exists c :: c in contributors && CloseForLength(norm, c))
    ensures v.suspicious ==> exists k ::
      && FirstFiring(LengthScaled, Lower(raw), Rules(ContainsWords, SusWords, contributors), k)
      && v.matched == Rules(ContainsWords, SusWords, contributors)[k].word
    ensures !v.suspicious ==> v.matched == ""
  {
    SomeRuleFires(LengthScaled, Lower(raw), ContainsWords, SusWords, contributors);
    Classify(LengthScaled, raw, ContainsWords, SusWords, contributors)
  }

  /** Each token as written holds U+0178, an upper-case letter that
      lower-casing removes, so no token ever occurs in a lower-cased name: the
      token loop never fires. */
  lemma TokensNeverFire(raw: string)
    ensures forall w :: w in ContainsWords ==> !Contains(Lower(raw), w)
  {
    var norm := Lower(raw);
    assert IsUpper('\U{0178}');
    assert '\U{0178}' !in norm;
    forall w | w in ContainsWords
      ensures !Contains(norm, w)
    {
      MissingRuneRulesOutContains(norm, w, 1);
    }
  }

  /** A name that is just the megaphone emoji is not flagged: it contains no
      token as written and is only four bytes long. */
  lemma MegaphoneMissed()
    ensures !IsSus("\U{1F4E2}", []).suspicious
  {
    var norm := Lower("\U{1F4E2}");
    assert norm == "\U{1F4E2}";
    TokensNeverFire("\U{1F4E2}");
    assert ByteLen(norm) == 4;
    forall w | w in SusWords
      ensures !Contains(norm, w)
    {
      MissingRuneRulesOutContains(norm, w, 0);
    }
  }

  /** `isSus` with the emoji as tokens; the reported word is again that of
      the first check that fires. */
  function IsSusIntended(raw: string, contributors: seq<string>): (v: Verdict)
    ensures var norm := Lower(raw);
      v.suspicious <==>
        || (exists w :: w in IntendedContainsWords && Contains(norm, w))
        || (exists w :: w in SusWords && (Contains(norm, w) || CloseForLength(norm, w)))
        || (exists c :: c in contributors && CloseForLength(norm, c))
    ensures v.suspicious ==> exists k ::
      && FirstFiring(LengthScaled, Lower(raw), Rules(IntendedContainsWords, SusWords, contributors), k)
      && v.matched == Rules(IntendedContainsWords, SusWords, contributors)[k].word
    ensures !v.suspicious ==> v.matched == ""
  {
    SomeRuleFires(LengthScaled, Lower(raw), IntendedContainsWords, SusWords, contributors);
    Classify(LengthScaled, raw, IntendedContainsWords, SusWords, contributors)
  }

  /** With the emoji as tokens, every name holding one is flagged. */
  lemma EmojiFlagged(raw: string, contributors: seq<string>, i: nat)
    requires i < |raw| && raw[i] in {'\U{1F4E2}', '\U{1F4E3}', '\U{1F4E1}'}
    ensures IsSusIntended(raw, contributors).suspicious
  {
    var norm := Lower(raw);
    assert norm[i] == raw[i];
    var w := [raw[i]];
    assert w in IntendedContainsWords;
    assert OccursAt(norm, w, i);
  }

  /** `CheckSpam`: the shared tracker with a threshold of two. */
  function CheckSpam(t: DuplicateSpam.Tracker, m: MessageCreate): (s: DuplicateSpam.Step)
    ensures s.mute <==>
      && DuplicateSpam.Screened(m)
      && m.author.id in t.recent
      && |t.recent[m.author.id].msgs| > 2
      && HasDuplicate(t.recent[m.author.id].msgs)
    ensures DuplicateSpam.Valid(t) ==> DuplicateSpam.Valid(s.tracker)
  {
    DuplicateSpam.Observe(SpamThreshold, t, m)
  }

  /** A name that no token, no suspicious word and no contributor name flags:
      with an empty contributor list it suffices that no word is contained in
      the lower-cased name or close to it for its length. */
  lemma WordsPass(raw: string)
    requires forall w :: w in SusWords[..4] ==> !Contains(Lower(raw), w) && !CloseForLength(Lower(raw), w)
    requires forall w :: w in SusWords[4..8] ==> !Contains(Lower(raw), w) && !CloseForLength(Lower(raw), w)
    requires forall w :: w in SusWords[8..] ==> !Contains(Lower(raw), w) && !CloseForLength(Lower(raw), w)
    ensures !IsSus(raw, []).suspicious
  {
    TokensNeverFire(raw);
    assert SusWords == SusWords[..4] + SusWords[4..8] + SusWords[8..];
  }

  /** "support", "juicebox", "announcement" and "airdrop" are neither
      contained in nor close to a name of runes from `pool` whose distance
      allowance is at most `b`, when the pool lacks one rune of each word and
      each word needs more than `b` runes the pool lacks or is more than `b`
      runes shorter than the name. */
  lemma FirstWordsMissed(raw: string, pool: set<char>, b: nat, ks: nat, kj: nat, kn: nat, ka: nat)
    requires RunesFrom(raw, pool) && ByteLen(Lower(raw)) / 4 <= b
    requires ks < 7 && "support"[ks] !in pool && (Outside("support", 7, pool) > b || |raw| > 7 + b)
    requires kj < 8 && "juicebox"[kj] !in pool && (Outside("juicebox", 8, pool) > b || |raw| > 8 + b)
    requires kn < 12 && "announcement"[kn] !in pool && (Outside("announcement", 12, pool) > b || |raw| > 12 + b)
    requires ka < 7 && "airdrop"[ka] !in pool && (Outside("airdrop", 7, pool) > b || |raw| > 7 + b)
    ensures forall w :: w in SusWords[..4] ==> !Contains(Lower(raw), w) && !CloseForLength(Lower(raw), w)
  {
    SupportJuiceboxMissed(raw, pool, b, ks, kj);
    AnnouncementAirdropMissed(raw, pool, b, kn, ka);
  }

  /** The same, stated word by word, for "support" and "juicebox". */
  lemma SupportJuiceboxMissed(raw: string, pool: set<char>, b: nat, ks: nat, kj: nat)
    requires RunesFrom(raw, pool) && ByteLen(Lower(raw)) / 4 <= b
    requires ks < 7 && "support"[ks] !in pool && (Outside("support", 7, pool) > b || |raw| > 7 + b)
    requires kj < 8 && "juicebox"[kj] !in pool && (Outside("juicebox", 8, pool) > b || |raw| > 8 + b)
    ensures !Contains(Lower(raw), "support") && !CloseForLength(Lower(raw), "support")
    ensures !Contains(Lower(raw), "juicebox") && !CloseForLength(Lower(raw), "juicebox")
  {
    assert Lower("support") == "support" && Lower("juicebox") == "juicebox";
    WordMissed(raw, "support", ks, pool, b);
    WordMissed(raw, "juicebox", kj, pool, b);
  }

  /** The same, stated word by word, for "announcement" and "airdrop". */
  lemma AnnouncementAirdropMissed(raw: string, pool: set<char>, b: nat, kn: nat, ka: nat)
    requires RunesFrom(raw, pool) && ByteLen(Lower(raw)) / 4 <= b
    requires kn < 12 && "announcement"[kn] !in pool && (Outside("announcement", 12, pool) > b || |raw| > 12 + b)
    requires ka < 7 && "airdrop"[ka] !in pool && (Outside("airdrop", 7, pool) > b || |raw| > 7 + b)
    ensures !Contains(Lower(raw), "announcement") && !CloseForLength(Lower(raw), "announcement")
    ensures !Contains(Lower(raw), "airdrop") && !CloseForLength(Lower(raw), "airdrop")
  {
    assert Lower("announcement") == "announcement" && Lower("airdrop") == "airdrop";
    WordMissed(raw, "announcement", kn, pool, b);
    WordMissed(raw, "airdrop", ka, pool, b);
  }

  /** Likewise for "admin", "giveaway", "opensea" and "uniswap". */
  lemma MiddleWordsMissed(raw: string, pool: set<char>, b: nat, kd: nat, kg: nat, ko: nat, ku: nat)
    requires RunesFrom(raw, pool) && ByteLen(Lower(raw)) / 4 <= b
    requires kd < 5 && "admin"[kd] !in pool && (Outside("admin", 5, pool) > b || |raw| > 5 + b)
    requires kg < 8 && "giveaway"[kg] !in pool && (Outside("giveaway", 8, pool) > b || |raw| > 8 + b)
    requires ko < 7 && "opensea"[ko] !in pool && (Outside("opensea", 7, pool) > b || |raw| > 7 + b)
    requires ku < 7 && "uniswap"[ku] !in pool && (Outside("uniswap", 7, pool) > b || |raw| > 7 + b)
    ensures forall w :: w in SusWords[4..8] ==> !Contains(Lower(raw), w) && !CloseForLength(Lower(raw), w)
  {
    AdminGiveawayMissed(raw, pool, b, kd, kg);
    OpenseaUniswapMissed(raw, pool, b, ko, ku);
  }

  /** The same, stated word by word, for "admin" and "giveaway". */
  lemma AdminGiveawayMissed(raw: string, pool: set<char>, b: nat, kd: nat, kg: nat)
    requires RunesFrom(raw, pool) && ByteLen(Lower(raw)) / 4 <= b
    requires kd < 5 && "admin"[kd] !in pool && (Outside("admin", 5, pool) > b || |raw| > 5 + b)
    requires kg < 8 && "giveaway"[kg] !in pool && (Outside("giveaway", 8, pool) > b || |raw| > 8 + b)
    ensures !Contains(Lower(raw), "admin") && !CloseForLength(Lower(raw), "admin")
    ensures !Contains(Lower(raw), "giveaway") && !CloseForLength(Lower(raw), "giveaway")
  {
    assert Lower("admin") == "admin" && Lower("giveaway") == "giveaway";
    WordMissed(raw, "admin", kd, pool, b);
    WordMissed(raw, "giveaway", kg, pool, b);
  }

  /** The same, stated word by word, for "opensea" and "uniswap". */
  lemma OpenseaUniswapMissed(raw: string, pool: set<char>, b: nat, ko: nat, ku: nat)
    requires RunesFrom(raw, pool) && ByteLen(Lower(raw)) / 4 <= b
    requires ko < 7 && "opensea"[ko] !in pool && (Outside("opensea", 7, pool) > b || |raw| > 7 + b)
    requires ku < 7 && "uniswap"[ku] !in pool && (Outside("uniswap", 7, pool) > b || |raw| > 7 + b)
    ensures !Contains(Lower(raw), "opensea") && !CloseForLength(Lower(raw), "opensea")
    ensures !Contains(Lower(raw), "uniswap") && !CloseForLength(Lower(raw), "uniswap")
  {
    assert Lower("opensea") == "opensea" && Lower("uniswap") == "uniswap";
    WordMissed(raw, "opensea", ko, pool, b);
    WordMissed(raw, "uniswap", ku, pool, b);
  }

  /** Likewise for "reward", "ticket" and "metamask". */
  lemma LastWordsMissed(raw: string, pool: set<char>, b: nat, kr: nat, kt: nat, km: nat)
    requires RunesFrom(raw, pool) && ByteLen(Lower(raw)) / 4 <= b
    requires kr < 6 && "reward"[kr] !in pool && (Outside("reward", 6, pool) > b || |raw| > 6 + b)
    requires kt < 6 && "ticket"[kt] !in pool && (Outside("ticket", 6, pool) > b || |raw| > 6 + b)
    requires km < 8 && "metamask"[km] !in pool && (Outside("metamask", 8, pool) > b || |raw| > 8 + b)
    ensures forall w :: w in SusWords[8..] ==> !Contains(Lower(raw), w) && !CloseForLength(Lower(raw), w)
  {
    RewardTicketMissed(raw, pool, b, kr, kt);
    MetamaskMissed(raw, pool, b, km);
  }

  /** The same, stated word by word, for "reward" and "ticket". */
  lemma RewardTicketMissed(raw: string, pool: set<char>, b: nat, kr: nat, kt: nat)
    requires RunesFrom(raw, pool) && ByteLen(Lower(raw)) / 4 <= b
    requires kr < 6 && "reward"[kr] !in pool && (Outside("reward", 6, pool) > b || |raw| > 6 + b)
    requires kt < 6 && "ticket"[kt] !in pool && (Outside("ticket", 6, pool) > b || |raw| > 6 + b)
    ensures !Contains(Lower(raw), "reward") && !CloseForLength(Lower(raw), "reward")
    ensures !Contains(Lower(raw), "ticket") && !CloseForLength(Lower(raw), "ticket")
  {
    assert Lower("reward") == "reward" && Lower("ticket") == "ticket";
    WordMissed(raw, "reward", kr, pool, b);
    WordMissed(raw, "ticket", kt, pool, b);
  }

  /** The same, stated word by word, for "metamask". */
  lemma MetamaskMissed(raw: string, pool: set<char>, b: nat, km: nat)
    requires RunesFrom(raw, pool) && ByteLen(Lower(raw)) / 4 <= b
    requires km < 8 && "metamask"[km] !in pool && (Outside("metamask", 8, pool) > b || |raw| > 8 + b)
    ensures !Contains(Lower(raw), "metamask") && !CloseForLength(Lower(raw), "metamask")
  {
    assert Lower("metamask") == "metamask";
    WordMissed(raw, "metamask", km, pool, b);
  }

  /** The test table's "" row: the empty name is never flagged. */
  lemma EmptyNamePasses()
    ensures !IsSus("", []).suspicious
  {
    assert Lower("") == "";
    FirstWordsMissed("", {}, 0, 0, 0, 0, 0);
    MiddleWordsMissed("", {}, 0, 0, 0, 0, 0);
    LastWordsMissed("", {}, 0, 0, 0, 0);
    WordsPass("");
  }

  /** A name of ASCII runes from `pool` has as many bytes as runes. */
  lemma PoolByteLen(raw: string, pool: set<char>)
    requires RunesFrom(raw, pool)
    requires forall c :: c in pool ==> (c as int) < 0x80
    ensures ByteLen(Lower(raw)) == |raw|
  {
    AsciiByteLen(Lower(raw));
  }

  /** The test table's "Hello" row, for every five-rune name spelled with the
      runes of "hello" in either case: its allowance is one edit, and every
      word needs more. */
  lemma HelloPasses(raw: string)
    requires |raw| == 5 && RunesFrom(raw, {'h', 'e', 'l', 'o'})
    ensures !IsSus(raw, []).suspicious
  {
    PoolByteLen(raw, {'h', 'e', 'l', 'o'});
    HelloPassesFirst(raw);
    HelloPassesMiddle(raw);
    HelloPassesLast(raw);
    WordsPass(raw);
  }

  lemma HelloPassesFirst(raw: string)
    requires |raw| == 5 && RunesFrom(raw, {'h', 'e', 'l', 'o'}) && ByteLen(Lower(raw)) == 5
    ensures forall w :: w in SusWords[..4] ==> !Contains(Lower(raw), w) && !CloseForLength(Lower(raw), w)
  {
    FirstWordsMissed(raw, {'h', 'e', 'l', 'o'}, 1, 0, 0, 0, 0);
  }

  lemma HelloPassesMiddle(raw: string)
    requires |raw| == 5 && RunesFrom(raw, {'h', 'e', 'l', 'o'}) && ByteLen(Lower(raw)) == 5
    ensures forall w :: w in SusWords[4..8] ==> !Contains(Lower(raw), w) && !CloseForLength(Lower(raw), w)
  {
    MiddleWordsMissed(raw, {'h', 'e', 'l', 'o'}, 1, 0, 0, 1, 0);
  }

  lemma HelloPassesLast(raw: string)
    requires |raw| == 5 && RunesFrom(raw, {'h', 'e', 'l', 'o'}) && ByteLen(Lower(raw)) == 5
    ensures forall w :: w in SusWords[8..] ==> !Contains(Lower(raw), w) && !CloseForLength(Lower(raw), w)
  {
    LastWordsMissed(raw, {'h', 'e', 'l', 'o'}, 1, 0, 0, 0);
  }

  /** The test table's "CLUCKER" row, for every seven-rune name spelled with
      the runes of "clucker" in either case. */
  lemma CluckerPasses(raw: string)
    requires |raw| == 7 && RunesFrom(raw, {'c', 'l', 'u', 'k', 'e', 'r'})
    ensures !IsSus(raw, []).suspicious
  {
    PoolByteLen(raw, {'c', 'l', 'u', 'k', 'e', 'r'});
    CluckerPassesFirst(raw);
    CluckerPassesMiddle(raw);
    CluckerPassesLast(raw);
    WordsPass(raw);
  }

  lemma CluckerPassesFirst(raw: string)
    requires |raw| == 7 && RunesFrom(raw, {'c', 'l', 'u', 'k', 'e', 'r'}) && ByteLen(Lower(raw)) == 7
    ensures forall w :: w in SusWords[..4] ==> !Contains(Lower(raw), w) && !CloseForLength(Lower(raw), w)
  {
    FirstWordsMissed(raw, {'c', 'l', 'u', 'k', 'e', 'r'}, 1, 0, 0, 0, 0);
  }

  lemma CluckerPassesMiddle(raw: string)
    requires |raw| == 7 && RunesFrom(raw, {'c', 'l', 'u', 'k', 'e', 'r'}) && ByteLen(Lower(raw)) == 7
    ensures forall w :: w in SusWords[4..8] ==> !Contains(Lower(raw), w) && !CloseForLength(Lower(raw), w)
  {
    MiddleWordsMissed(raw, {'c', 'l', 'u', 'k', 'e', 'r'}, 1, 0, 0, 0, 1);
  }

  lemma CluckerPassesLast(raw: string)
    requires |raw| == 7 && RunesFrom(raw, {'c', 'l', 'u', 'k', 'e', 'r'}) && ByteLen(Lower(raw)) == 7
    ensures forall w :: w in SusWords[8..] ==> !Contains(Lower(raw), w) && !CloseForLength(Lower(raw), w)
  {
    LastWordsMissed(raw, {'c', 'l', 'u', 'k', 'e', 'r'}, 1, 2, 0, 0);
  }

  /** A name whose lower case contains a suspicious word is flagged. */
  lemma WordInsideFlagged(raw: string, w: string, i: nat)
    requires w in SusWords && OccursAt(Lower(raw), w, i)
    ensures IsSus(raw, []).suspicious
  {
  }

  /** A name longer than four bytes within a quarter of its byte length of a
      suspicious word is flagged. */
  lemma NearWordFlagged(raw: string, w: string)
    requires w in SusWords && CloseForLength(Lower(raw), w)
    ensures IsSus(raw, []).suspicious
  {
  }

  /** The test table's "Uniswap Reward" row. */
  lemma UniswapRewardFlagged()
    ensures IsSus("Uniswap Reward", []).suspicious
  {
    assert Lower("Uniswap Reward") == "uniswap reward";
    assert OccursAt("uniswap reward", "uniswap", 0);
    WordInsideFlagged("Uniswap Reward", "uniswap", 0);
  }

  /** The test table's "HelloANNOUNCEMENT" row. */
  lemma ShoutFlagged()
    ensures IsSus("HelloANNOUNCEMENT", []).suspicious
  {
    assert Lower("HelloANNOUNCEMENT") == "helloannouncement";
    assert OccursAt("helloannouncement", "announcement", 5);
    WordInsideFlagged("HelloANNOUNCEMENT", "announcement", 5);
  }

  /** The closeness test from its parts: the lower-cased name, its byte
      length and its edit distance to an already lower-case word. */
  lemma CloseByDistance(raw: string, norm: string, w: string, n: nat)
    requires Lower(raw) == norm && Lower(w) == w && ByteLen(norm) == n
    requires n > 4 && EditDistance(norm, w) <= n / 4
    ensures CloseForLength(Lower(raw), w)
  {
    LowerIdempotent(raw);
  }

  /** The test table's "Anoncement" row: ten bytes allow two edits. */
  lemma AnoncementFlagged()
    ensures IsSus("Anoncement", []).suspicious
  {
    AnoncementClose();
    NearWordFlagged("Anoncement", "announcement");
  }

  lemma AnoncementLower()
    ensures Lower("Anoncement") == "anoncement" && Lower("announcement") == "announcement"
  {
  }

  lemma AnoncementBytes()
    ensures ByteLen("anoncement") == 10
  {
    AsciiByteLen("anoncement");
  }

  lemma AnoncementClose()
    ensures CloseForLength(Lower("Anoncement"), "announcement")
  {
    AnoncementLower();
    AnoncementBytes();
    Spellings.AnoncementNearAnnouncement();
    CloseByDistance("Anoncement", "anoncement", "announcement", 10);
  }

  /** The test table's "Uniswep" row: seven bytes allow one edit. */
  lemma UniswepFlagged()
    ensures IsSus("Uniswep", []).suspicious
  {
    UniswepClose();
    NearWordFlagged("Uniswep", "uniswap");
  }

  lemma UniswepLower()
    ensures Lower("Uniswep") == "uniswep" && Lower("uniswap") == "uniswap"
  {
  }

  lemma UniswepBytes()
    ensures ByteLen("uniswep") == 7
  {
    AsciiByteLen("uniswep");
  }

  lemma UniswepClose()
    ensures CloseForLength(Lower("Uniswep"), "uniswap")
  {
    UniswepLower();
    UniswepBytes();
    Spellings.UniswepNearUniswap();
    CloseByDistance("Uniswep", "uniswep", "uniswap", 7);
  }

  /** The test table's "ANNOUCENMENT" row: twelve bytes allow three edits. */
  lemma AnnoucenmentFlagged()
    ensures IsSus("ANNOUCENMENT", []).suspicious
  {
    AnnoucenmentClose();
    NearWordFlagged("ANNOUCENMENT", "announcement");
  }

  lemma AnnoucenmentLower()
    ensures Lower("ANNOUCENMENT") == "annoucenment" && Lower("announcement") == "announcement"
  {
  }

  lemma AnnoucenmentBytes()
    ensures ByteLen("annoucenment") == 12
  {
    AsciiByteLen("annoucenment");
  }

  lemma AnnoucenmentClose()
    ensures CloseForLength(Lower("ANNOUCENMENT"), "announcement")
  {
    AnnoucenmentLower();
    AnnoucenmentBytes();
    Spellings.AnnoucenmentNearAnnouncement();
    CloseByDistance("ANNOUCENMENT", "annoucenment", "announcement", 12);
  }
}
