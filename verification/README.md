# juicehammer in Dafny

A model of the moderation logic of juicehammer, a Discord bot for the
JuiceboxDAO server. The bot mutes new members whose names imitate a
suspicious word or a contributor's name, whose avatar matches a known
picture, or who spam. The model covers the sequential logic behind those
decisions, as pure functions over immutable values:

- **Edit distance.** `levenshtein` is the single-vector `uint16` Levenshtein
  over lower-cased runes. It is modelled as an imperative method over an array
  of a `u16` newtype, with loop invariants tying it to the classical recursive
  edit distance (`StringDistance`).
- **Name classifier.** `isSus` scans the emoji tokens, then the suspicious
  words, then the contributor names, and reports the first hit (`Matcher`).
  The main package (`Bot`) uses fixed distance thresholds. The `names` package
  (`Names`) scales the threshold with the byte length of the name.
  - Both packages build the contributor list: filter members by role,
    lower-case their names, sort and compact (`Contributors`, `Ordering`).
- **Spam trackers.** Each tracker is a state machine over a map from user id to
  the stored channel ids and messages. A pending clearing timer is part of the
  state, and its firing is an explicit `Expire` event (`Timers`).
  - The repeated-content tracker is shared by the main and `names` packages,
    which differ only in the threshold (`DuplicateSpam`).
  - The multi-channel tracker is the `spam` package (`Spam`). Its in-place
    `slices.Sort` and `slices.Compact` (`GoSlices`) rewrite the stored channel
    ids, so that package is modelled twice: as written, for either behaviour of
    `Compact`, and as evidently intended (see Findings).
- **Avatar registry.** An append-only list of perceptual hashes, scanned with a
  distance function. Here the last match wins (`Pfp`).
- **Event gating.** The handlers decide which checks run, and when a check
  leads to a mute (`Juicebox`).

Strings are sequences of code points. `strings.ToLower` is modelled for
Basic Latin, the Latin-1 Supplement and U+0178. Go's `len` on a string is its
UTF-8 byte length (`Text.ByteLen`). Discord, HTTP, image decoding, hashing,
clocks, goroutines and locks do not appear. Their results enter as
parameters: the "joined within a week" test is a boolean, the timer is an
event, and the image fetch, the perceptual hash and the hash distance are
function parameters.

The test tables do not always agree with the code. The model follows the code.

- `main_test.go` expects "Uniswap Reward" and "Uniswep" to be flagged. The
  main package's word list holds neither "uniswap" nor "reward", so neither
  is (see Findings).
- Both tables hold rows in a double-encoded spelling of emoji. `names_test.go`
  also expects Unicode normalisation that the code does not do. Those rows are
  not modelled.
- `names_test.go` calls a function `NameIsSuspicious` that the `names` package
  does not define. Its rows are proved of `isSus`.

## Model

| member | source | states |
|---|---|---|
| Text.LowerRuneRoundTrip | main.go:293 | lower-casing is invertible on upper-case letters, so no two letters share a lower case |
| Text.Lower | main.go:293 | lower-casing maps each rune to its own lower case (A-Z and U+00C0-U+00DE except U+00D7 move up by 32, U+0178 becomes U+00FF): the rune count is kept, no upper-case letter remains, and other runes are unchanged |
| Text.ByteLen | names/names.go:243 | the UTF-8 byte length of a string lies between its rune count and four times it, and is zero only for the empty string |
| Text.AsciiByteLen | names/names.go:243 | on ASCII text the byte length equals the rune count |
| Text.MissingRuneRulesOutContains | main.go:297 | a string cannot contain a word that uses a rune the string lacks |
| StringDistance.EditDistance | main.go:337-379 | the classical edit distance lies between the difference of the rune lengths and the larger rune length |
| StringDistance.DistBounds | main.go:349-379 | the same bounds for every pair of prefixes of the cost table |
| StringDistance.EditDistanceSymmetric | main.go:341-344 | the edit distance does not depend on the order of its arguments |
| StringDistance.EditDistanceZeroIff | main.go:333-335 | the edit distance is zero exactly between equal rune sequences |
| StringDistance.EditDistanceAtLeastOutside | main.go:366-377 | each rune of one argument that the other lacks costs at least one edit |
| StringDistance.Levenshtein | main.go:324-380 | for arguments shorter than 65535 runes, `levenshtein` is the edit distance of the lower-cased rune sequences, and its early exits for empty and equal arguments agree with it |
| StringDistance.LevenshteinSymmetric | main.go:341-344 | swapping the arguments does not change the result |
| StringDistance.CellCostIsDist | main.go:368-374 | one cell update of the rolling vector, with no `uint16` overflow, yields the table entry of the recurrence |
| StringDistance.RollingLevenshtein | main.go:324-380 | the rolling `uint16` vector implementation returns the edit distance of the lower-cased rune sequences |
| StringDistance.WordMissed | main.go:303-306 | a name made of runes from a pool neither contains nor lies within the bound of a word whose runes the pool lacks |
| Ordering.BelowTotal | main.go:122 | Go's string order is total: two different strings are ordered one way or the other |
| Ordering.BelowTransitive | main.go:122 | Go's string order is transitive |
| Ordering.SortCompact | main.go:122-123 | sorting then compacting gives a strictly ascending sequence with exactly the input's elements |
| Ordering.SortCompactLength | main.go:186-189 | the compacted slice is shorter than the input exactly when the input repeats a value |
| Ordering.SortedUnique | main.go:122-123 | a strictly sorted sequence is determined by its elements, so the result does not depend on input order |
| Ordering.DistinctCount | main.go:187-189 | a sequence has as many distinct elements as positions exactly when it has no repeat |
| Contributors.Collect | main.go:90-110 | the member loop yields exactly the non-empty lower-cased names of members holding a listed role |
| Contributors.Build | main.go:91-123 | the list is strictly sorted and holds exactly those names |
| Matcher.FindFirst | main.go:296-300 | one scan loop returns the index of the first rule that fires, and none only when no rule fires |
| Matcher.SomeRuleFires | main.go:296-314 | some rule fires exactly when some token, some word or some contributor name fires |
| Matcher.Classify | main.go:292-317 | the verdict is suspicious exactly when some rule fires, then names the first rule to fire in scan order, and is otherwise `(false, "")` |
| Bot.IsSus | main.go:292-317 | suspicious exactly when the lower-cased name contains an emoji token, contains or lies within 2 of a suspicious word, or contains or lies within 1 of a contributor name; the match is the first hit |
| Contributors.BuildOnce | main.go:73-126 | a list already built is kept; otherwise the list is strictly sorted and holds exactly the non-empty lower-cased names of members holding a listed role |
| Bot.AlumniListed | main.go:91-99 | the main package lists the names of alumni too |
| Bot.CheckSpam | main.go:144-209 | a mute exactly when the screened author's stored messages number more than 3 and repeat one; the tracker invariant is kept |
| Bot.NoWordNoFlag | main.go:296-316 | with no contributor names, a name far from every word and containing no token is not flagged |
| Bot.EmptyNamePasses | main_test.go:10 | "" is not flagged |
| Bot.HelloPasses | main_test.go:11 | every name spelled with the runes of "hello" is not flagged |
| Bot.CluckerPasses | main_test.go:12 | every name spelled with the runes of "clucker" is not flagged |
| Bot.UniswapRewardPasses | main_test.go:13 | no 14-rune name spelled with the runes of "uniswap reward" is flagged, contrary to the table |
| Bot.UniswepPasses | main_test.go:21 | no name spelled with the runes of "uniswep" is flagged, contrary to the table |
| Bot.IsSusIntended | main.go:288-317 | the classifier its test table expects: as `Bot.IsSus`, with the eleven suspicious words of names/names.go:222 |
| Bot.IntendedFlagsMore | main.go:288 | the correction only adds words, so every name flagged as written stays flagged |
| Bot.UniswapRewardFlaggedIntended | main_test.go:13 | the correction flags "Uniswap Reward" |
| Bot.UniswepFlaggedIntended | main_test.go:21 | the correction flags "Uniswep" |
| Bot.AnoncementFlagged | main_test.go:14 | "Anoncement" is flagged |
| Bot.ShoutFlagged | main_test.go:19 | "HelloANNOUNCEMENT" is flagged |
| Spellings.AnoncementNearAnnouncement | main_test.go:14 | "anoncement" lies within 2 edits of "announcement" |
| Spellings.UniswepNearUniswap | names/names_test.go:21 | "uniswep" lies within 1 edit of "uniswap" |
| Spellings.AnnoucenmentNearAnnouncement | names/names_test.go:22 | "annoucenment" lies within 2 edits of "announcement" |
| Names.IsSus | names/names.go:227-253 | suspicious exactly when the lower-cased name contains a token, contains a suspicious word or is longer than 4 bytes and within a quarter of its byte length of one, or is longer than 4 bytes and within a quarter of its byte length of a contributor name; the match is the first hit |
| Names.AlumniLeftOut | names/names.go:36-70 | a name carried only by members holding neither the contributor nor the admin role, alumni included, stays out of the list |
| Names.CheckSpam | names/names.go:91-156 | a mute exactly when the screened author's stored messages number more than 2 and repeat one; the tracker invariant is kept |
| Names.TokensNeverFire | names/names.go:224-236 | no token as written can occur in a lower-cased name |
| Names.MegaphoneMissed | names/names.go:224-236 | a name consisting of the megaphone emoji alone is not flagged |
| Names.IsSusIntended | names/names.go:224-253 | the classifier with the emoji as tokens: suspicious exactly when an emoji, a word or a contributor name fires, reporting the word of the first check that fires (emoji, then words, then contributor names) |
| Names.EmojiFlagged | names/names.go:224-236 | with the emoji as tokens, every name holding one is flagged |
| Names.WordsPass | names/names.go:232-252 | with no contributor names, a name that no word fires on is not flagged |
| Names.EmptyNamePasses | names/names_test.go:10 | "" is not flagged |
| Names.HelloPasses | names/names_test.go:11 | every five-rune name spelled with the runes of "hello" is not flagged |
| Names.CluckerPasses | names/names_test.go:12 | every seven-rune name spelled with the runes of "clucker" is not flagged |
| Names.UniswapRewardFlagged | names/names_test.go:13 | "Uniswap Reward" is flagged |
| Names.AnoncementFlagged | names/names_test.go:14 | "Anoncement" is flagged |
| Names.ShoutFlagged | names/names_test.go:19 | "HelloANNOUNCEMENT" is flagged |
| Names.UniswepFlagged | names/names_test.go:21 | "Uniswep" is flagged |
| Names.AnnoucenmentFlagged | names/names_test.go:22 | "ANNOUCENMENT" is flagged |
| DuplicateSpam.Observe | main.go:144-209 | unscreened messages change nothing; a new user gets a one-message entry and one timer; a known user gets exactly this channel and message appended; other users are untouched; the mute happens exactly when the earlier messages exceed the threshold and repeat one; the invariant count = messages = channels is kept |
| Timers.Expire | main.go:176-182 | the timer removes exactly that user's entry and one pending timer, leaves every other entry alone, and keeps one timer per tracked user |
| DuplicateSpam.ExpireKeepsValid | main.go:176-182 | the timer firing keeps the invariant count = messages = channels |
| Spam.IsSpam | spam/spam.go:28-75 | as evidently intended: reports exactly when the stored entry has more than 2 messages over more than 2 distinct channels; a report leaves the tracker as it was and mentions each distinct channel once, ascending; otherwise exactly this message is stored and `(false, "")` returned; other users are untouched; the invariant is kept |
| Spam.IsSpamAsWritten | spam/spam.go:28-75 | as written, with the sort and both compactions in place on the stored slice: reports exactly when more than 2 messages are stored and the sorted, compacted channel ids number more than 2; no report gives an empty channel string; a report stores no message; otherwise exactly this message is stored; a timer starts exactly for a new user; other users are untouched |
| Spam.AsWrittenVerdict | spam/spam.go:51-56 | for either Go version, the code as written reports exactly when the stored entry holds more than 2 messages over more than 2 distinct channels, as the intended version does |
| Spam.AsWrittenKeepsValid | spam/spam.go:51-71 | the in-place sort and compactions keep the slice's length, so the invariant of one channel id per stored message is kept |
| Spam.KeepingTailAgrees | spam/spam.go:51-71 | with Go 1.21's `Compact`, which keeps the tail, the code as written reports exactly when the intended version does, on every pair of trackers holding the same messages and the same set of channels per user, and it keeps that correspondence |
| Spam.ExpireKeepsSameChannelSets | spam/spam.go:42-48 | the timer firing keeps that correspondence |
| Spam.RepeatedChannelsReported | spam/spam.go:51-62 | with Go 1.21's `Compact`, a user posting to a, a, a, b, c is reported on the next message with b and c mentioned twice |
| Spam.RepeatedChannelsReportedOnce | spam/spam.go:51-62 | the intended version reports the same user on the same message, mentioning a, b and c once each |
| Spam.BlankChannelReported | spam/spam.go:51-62 | with Go 1.22's `Compact`, which clears the tail, a user posting to only a, a, b, a is reported on the next message, and the report mentions an empty channel id twice |
| Spam.TwoChannelsNeverReported | spam/spam.go:51-62 | the intended version reports none of those five messages |
| GoSlices.Sort | spam/spam.go:52 | `slices.Sort` yields a sorted permutation of its input |
| GoSlices.SortedPermutationUnique | spam/spam.go:52 | two sorted slices with the same elements counted with multiplicity are equal, so the sort's result is unique |
| GoSlices.SortedIsFixed | spam/spam.go:52 | sorting a sorted slice changes nothing |
| GoSlices.Dedup | spam/spam.go:53 | dropping adjacent repeats keeps the set of elements and the last element, and does not lengthen |
| GoSlices.DedupNoRepeat | spam/spam.go:53 | a slice without adjacent repeats is its own compaction |
| GoSlices.DedupSorted | spam/spam.go:52-53 | compacting a sorted slice gives a strictly ascending one |
| GoSlices.SortThenCompact | spam/spam.go:52-53 | sorting then compacting yields the strictly ascending list of the distinct elements |
| GoSlices.CompactSlots | spam/spam.go:53 | `slices.Compact` in place: the length is kept, the returned prefix is the compaction; keeping the tail keeps the set of elements, and clearing it adds at most the empty string |
| GoSlices.CompactKeepingTail | spam/spam.go:53 | the Go 1.21 compaction loop computes `CompactSlots` without clearing |
| GoSlices.CompactClearingTail | spam/spam.go:53 | the Go 1.22 compaction loop computes `CompactSlots` with the tail cleared |
| Spam.ExpireKeepsValid | spam/spam.go:42-48 | the timer firing keeps the invariant of one channel per message |
| Spam.MentionsEach | spam/spam.go:58-61 | the channel string mentions each listed id as ` <#id>` |
| Spam.ReportMentionsEveryChannel | spam/spam.go:52-62 | a report mentions every channel the user posted to |
| Spam.FourChannelsReported | spam/spam.go:34-75 | a fresh user posting to three distinct channels is reported on the fourth message, not before |
| Spam.OneChannelNeverReported | spam/spam.go:51-56 | a user posting to one channel only is never reported |
| Spam.FreshAfterExpiry | spam/spam.go:34-48 | after the timer fires, the next message opens a fresh entry |
| Pfp.PHashImg | pfp/pfp.go:38-56 | on success exactly one entry is appended; on a decode or hash failure the registry is unchanged and that failure's error is returned as is |
| Pfp.PHashImgAppendsOnly | pfp/pfp.go:51-53 | the registry only ever grows at its end, by at most one entry |
| Pfp.LastMatchSpec | pfp/pfp.go:134-145 | the reference finds a hit exactly when some entry is within distance 10, and its hit is the last such entry |
| Pfp.ScanRegistry | pfp/pfp.go:134-145 | the scan loop finds the hit of the last entry within distance 10, and is suspicious exactly when one exists |
| Pfp.CheckPfp | pfp/pfp.go:107-148 | an empty avatar URL gives not-suspicious with an error; a fetch or hash failure gives an error; otherwise suspicious exactly when some entry matches, reporting the last match |
| Pfp.LastMatchConcat | pfp/pfp.go:141-144 | a hit later in the registry overrides any earlier one |
| Pfp.FailedDistancesIgnored | pfp/pfp.go:135-139 | dropping the entries whose distance fails does not change the scan |
| Pfp.RegisteredIsDetected | pfp/pfp.go:38-56 | an avatar just registered is reported with its own description when a hash's distance to itself is below 10 |
| Juicebox.JoinChecks | juicebox/juicebox.go:78-86 | no check for a muted member, both checks otherwise |
| Juicebox.UpdateChecks | juicebox/juicebox.go:89-120 | nothing for a muted, contributor or admin member; both checks without a before-state; otherwise names iff a name changed and avatar iff the URL changed |
| Juicebox.UpdateWithoutBeforeIsJoin | juicebox/juicebox.go:103-107 | an update without a before-state screens a non-exempt member as a join does |
| Juicebox.UnchangedUpdateChecksNothing | juicebox/juicebox.go:110-119 | an update changing no name and not the avatar runs no check |
| Juicebox.ExemptOnlyOnUpdate | juicebox/juicebox.go:78-100 | contributors and admins are screened on joining but not on update |
| Juicebox.CheckNames | juicebox/juicebox.go:140-159 | the muting field is the first in visiting order with a non-empty suspicious value, and there is none exactly when no non-empty name is suspicious |
| Juicebox.NameMuteOrderFree | juicebox/juicebox.go:147-158 | whether a name mute happens does not depend on the map's visiting order |
| Juicebox.EmptyNamesNeverChecked | juicebox/juicebox.go:148-150 | a member whose names are all empty is never muted over a name |
| Juicebox.Screen | juicebox/juicebox.go:140-173 | a name mute exactly when names are checked and some field fires; an avatar mute exactly when the avatar is checked and its verdict is suspicious without error |
| Juicebox.MutedJoinScreensNothing | juicebox/juicebox.go:80-82 | a muted member's join leads to no mute |
| Juicebox.ScreenMessage | juicebox/juicebox.go:123-183 | bots, muted members, contributors and admins are skipped with the tracker unchanged; otherwise the `spam` tracker as written runs, for either Go version, and the author is muted exactly when the stored entry holds more than 2 messages over more than 2 distinct channels; no mute gives an empty channel list; the tracker invariant is kept |
| Juicebox.AlumniMessagesTracked | juicebox/juicebox.go:129-136 | alumni are not exempt: their messages are recorded |

## Left out

- Discord session, handler registration, `muteMember`/`MuteMember`, message sending and logging: I/O.
- Member pagination with the `after` cursor and `log.Fatalf`: the member list is one flat sequence.
- `ParseContributors`, `names.MonitorName` and `pfp.MonitorPfp`: the last two are called by `juicebox.go` but defined in none of its sources.
- `names.NameIsSuspicious` and `pfp.PfpIsSuspicious`: these are also undefined. The handlers take a name classifier and an avatar check as parameters.
- `HashFolderImgs`, `ContributorPfp` and `CheckAll` (`pfp.go`): a directory walk, an HTTP fetch that uses the response after an error, and a goroutine fan-out.
- `http.Get`, `image.Decode`, `PerceptionHash` and `Distance`: foreign code, taken as function parameters.
- Mute-message text, timestamps and durations: only the spam channel list is modelled.
- DuplicateSpam.Observe: keeps the stored messages as they arrived. The Go code sorts and compacts them in place (main.go:186-187, names/names.go:133-134). Only the two lengths are compared, so the sort does not change the decision. The compaction rewrites the stored messages only when it finds a repeat, that is, when the user is muted. On a mute the code also compacts the stored channel ids in place (main.go:193, names/names.go:140): Go 1.21 turns a, a, b, c into a, b, c, c, Go 1.22 turns a, a, a, a into a, "", "", "". The contract's "the channel id is appended to the stored ids" holds for those ids only when there is no mute. Nothing but the mute text reads the ids. What the rewritten messages lead to on that user's later messages is not modelled.
- Goroutines and locks: each handler call is atomic, and the gap between the read lock and the write lock is not modelled. The two-minute timer is an explicit `Expire` event. Since the timer is started only when an entry is created, the window is fixed, not sliding.
- The Go version: `Spam.IsSpamAsWritten` and `Juicebox.ScreenMessage` take whether `slices.Compact` clears the tail (Go 1.22 and later) as the parameter `clearsTail`. The duplicate-message trackers keep value semantics (see `DuplicateSpam.Observe` above).
- `userJoins` and `memberUpdate` (main.go:212-272) and `UserJoins` and `MemberUpdate` (names/names.go:159-220): same loop shape as `checkNames`, which is modelled. `memberUpdate` dereferences a missing before-state.
- A missing message author: the handlers test `m.Author == nil` after dereferencing it. The model always has an author.
- Text.Lower: folds case only for Basic Latin, the Latin-1 Supplement and U+0178. Every other rune is its own lower case here, unlike Go's full Unicode table.
- StringDistance.RollingLevenshtein: requires both rune lengths below 65535, because at 65535 a `uint16` cost can wrap around. The wrap-around for longer names is not modelled.
- StringDistance.Levenshtein: gives the true edit distance for arguments of every length. Go's `uint16` costs (main.go:358-372) can wrap around once an argument has 65535 runes or more, so the contract holds for the Go function only below that length. The classifiers built on it (`Matcher.Classify`, `Bot.IsSus`, `Names.IsSus`, `Names.IsSusIntended`) have the same scope.
- Bot.HelloPasses, Bot.CluckerPasses, Names.HelloPasses, Names.CluckerPasses: these are proved for every name over the row's runes (`Names` also fixes the length). Bot.UniswapRewardPasses fixes the length as well. The literal row is one such name.
- Test rows needing Unicode normalisation, and the emoji rows, which are written in a double-encoded spelling: not modelled.

## Findings

| source | as written | input that shows it | evidently intended | confidence | as-written member | corrected member |
|---|---|---|---|---|---|---|
| spam/spam.go:52-59 | `slices.Sort` and `slices.Compact` work in place on the slice shared with the stored entry. The report ranges over a second `Compact` of the whole rewritten slice, not over `channelIds` | with Go 1.21, posts to a, a, a, b, c, then one more message: the report reads " <#a> <#b> <#c> <#b> <#c>". With Go 1.22, posts to a, a, b, a, then one more: the user is reported with " <#> <#a> <#b> <#>" after posting to two channels only | the report lists the compacted `channelIds` once each, and the sort works on a copy, so the stored ids are not disturbed | high, not executed | Spam.IsSpamAsWritten (Spam.RepeatedChannelsReported, Spam.BlankChannelReported) | Spam.IsSpam (Spam.RepeatedChannelsReportedOnce, Spam.TwoChannelsNeverReported, Spam.KeepingTailAgrees) |
| main.go:288 | the suspicious words are six; neither "uniswap" nor "reward" is among them | "Uniswap Reward" (main_test.go:13) and "Uniswep" (main_test.go:21) are not flagged, although the test table expects both flagged | the eleven-word list of names/names.go:222, which holds both words | medium, not executed | Bot.IsSus (Bot.UniswapRewardPasses, Bot.UniswepPasses) | Bot.IsSusIntended (Bot.UniswapRewardFlaggedIntended, Bot.UniswepFlaggedIntended, Bot.IntendedFlagsMore) |
| names/names.go:224 | the tokens are the UTF-8 bytes of the emoji U+1F4E2, U+1F4E3 and U+1F4E1 read as Windows-1252 text. Each holds U+0178, which lower-casing turns into U+00FF, so no token can occur in the lower-cased name | the name "📢" (U+1F4E2) is not flagged | the tokens are the emoji themselves, as in main.go:289, so that a name holding one is flagged | high, not executed | Names.IsSus (Names.TokensNeverFire, Names.MegaphoneMissed) | Names.IsSusIntended (Names.EmojiFlagged) |
