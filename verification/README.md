# Oversea, modelled and proved in Dafny

This project models the parts of Oversea that keep state, branch heavily, or have to agree with a simpler
description of themselves, and proves what they promise. Methods and classes follow the code that updates
things step by step; functions say what those methods compute; lemmas prove what the functions mean.

- **Hash core.** `Fips180` is FIPS 180-4 as functions, and `FipsFacts` checks it against what the standard says of its
  constants and the example it publishes. `Sha256` is the streaming C++ object with its 64-byte buffer
  and block function in place, proved to compute the standard's digest for every way of feeding it. `Hmac` is
  HMAC of RFC 2104, and `KeyDerivation` the file key and gate MAC of the native core beside their Dart twin. `Formats`
  says byte by byte what keys, masks and tokens are made of.
- **Gate.** `Limiter` (failures per address), `Stats`, `CapProtocol` and `DailyCap` (distinct addresses per lock,
  checked and recorded in separate critical sections), `Token`, `AllowList`, `HotReload` (the polling watcher against
  a writer), `ClientIp`, `Handler` and `HandlerRuns` (whole requests and runs of them), `GateLimiter` and `GateCap` (the
  limiter and the cap as the running gate applies them).
- **Operator's editors.** `Editor` adds and revokes allow-list lines; `Settings` loads, saves and changes `gate.conf`, and
  `SettingsMeaning` says which name sets what.
- **Client.** `Percent`, `Xray`, `Draft`, `DraftMeaning` and `DraftStable` (share link to form to link, with the Xray
  outbound as its meaning), `LinkParameters` and `FormEdits` (what one parameter, and one field of the form, does to that
  outbound), `Base64` and `Shadowsocks`, `Der` (the key inside a certificate), `VpnConfig`,
  `Migration` and `MigrationCopies` (the store's crash-safe move of old configs, and adding) and `Merge` (refreshing a subscription).

`Text` holds the string operations: splitting, trimming, fields, decimal numbers; `Utf8` is the strict reader and the
writer of UTF-8. Text is ASCII; where a program works on encoded text, a string stands for its UTF-8 bytes, one
character below 256 each. Time is an integer. Clocks, address hashes and the network are parameters, and so is CodeID where the allow-list and its editor use it.
`dafny verify dfyconfig.toml` checks everything.

## What the proofs show about the code

Most promises hold as documented. Where one does not, the model follows the code and the exact condition is proved:

- Opening and saving a share link unchanged changes the outbound when TLS over plain TCP or gRPC takes its server
  name from `host`, which the writer drops there, or when a parameter has outer white space
  (`DraftMeaning.EditingPreservesMeaningIff`). A blank fingerprint reappears as `chrome` on the second save
  (`DraftStable.SecondSaveSameIff`).
- A lock whose code has upper-case letters is not found by typing its code, because only the typed text is
  lower-cased (`Editor.WholeCodeHitsIff`). Which lines can be revoked at all is `Editor.RevocableIff`; without
  upper-case letters, exactly those whose code is on no other line (`Editor.LowerCodeRevocableIff`).
- An edit of the allow-list is lost exactly when an open fails after a stat that saw it
  (`HotReload.LastGoodEditInstalledIff`), or when its modification time is the recorded one
  (`HotReload.QuietPollInstallsIff`, `HotReload.EqualTimesLose`). A later edit repairs it (`HotReload.LaterEditRepairs`).
- The daily cap fails for a cap above the 20000 addresses kept per lock (`DailyCap.CapHoldsIff`), and when the clock
  comes back to an earlier day: `DailyCap.CapKeptIff` says for which clocks it holds, and `GateCap.GateCapIff` what the
  gate then forwards. Concurrent requests exceed it by at most one less than their number (`CapProtocol.ConcurrentCap`).
- How many failures within a window always leave an address blocked depends on how long blocks last
  (`Limiter.AlwaysBlockedIff`): with the daemon's 20 failures, one minute and ten minutes it is 38, and the gate, which
  reports no failure of a blocked address, needs as many when blocks outlast the window (`GateLimiter.GateBlocksIff`).
- App and gate disagree about the day only before 1970, in the last second above a midnight (`Token.DaysAgree`).
- The Dart derivation fails where the native one does not, when the mask is a single digit, a pair is not hexadecimal
  or an unmasked part is not well-formed UTF-8, and differs when a part begins with a byte order mark
  (`KeyDerivation.DerivationsAgree`).
- The migration stores configs twice exactly when some call saves a list for which it read the vault after an earlier
  save (`MigrationCopies.EverDoubledIff`): two loads at once are enough (`MigrationCopies.OverlapDoubles`), and with
  one call a launch it takes a cut between the save and the wipe (`Migration.DuplicatesIff`). It never loses a config
  by itself (`Migration.NothingIsLost`); a list saved meanwhile without loading can (`Migration.ReplaceIsSafeIff`).

## Model

| member | source | states |
|---|---|---|
| `FipsFacts.CubeRoots0` | android/app/src/main/cpp/sha256.cpp:7-8 | the first four round constants are the first 32 fractional bits of the cube roots of the first primes (section 4.2.2 of FIPS 180-4); `CubeRoots1` to `CubeRoots15` say so of all 64 |
| `FipsFacts.SquareRoots` | android/app/src/main/cpp/sha256.cpp:43-44 | the initial chaining value is the fractional bits of the square roots of the first eight primes (section 5.3.3) |
| `FipsFacts.ChChooses` | android/app/src/main/cpp/sha256.cpp:31 | every bit of `ch` is chosen by e between f and g |
| `FipsFacts.MajFollows` | android/app/src/main/cpp/sha256.cpp:34 | `mj` follows any two of its three words that agree |
| `FipsFacts.AbcDigest` | android/app/src/main/cpp/sha256.cpp:19-70 | the digest of "abc" is the one the standard publishes |
| `Fips180.PaddingIsLeast` | android/app/src/main/cpp/sha256.cpp:58-70 | the padded message fills whole blocks and no smaller number of zero bytes would (section 5.1.1 of FIPS 180-4) |
| `Fips180.LastZero` | android/app/src/main/cpp/sha256.cpp:61-63 | the zero-filling loop stops after exactly that number of zero bytes, and not before |
| `Fips180.LengthFieldIsExact` | android/app/src/main/cpp/sha256.cpp:59-68 | below 2^61 bytes the last eight bytes of the padding are the whole bit length |
| `Sha256.Schedule` | android/app/src/main/cpp/sha256.cpp:19-27 | the 64 words the code fills in are W_t of section 6.2.2 |
| `Sha256.Block` | android/app/src/main/cpp/sha256.cpp:19-39 | one in-place block adds to `h` what the 64 rounds of the standard do |
| `Sha256.Hasher.Update` | android/app/src/main/cpp/sha256.cpp:48-56 | whatever is pending, the object has then absorbed the old bytes followed by the new ones |
| `Sha256.Hasher.FeedPadding` | android/app/src/main/cpp/sha256.cpp:58-66 | feeding 0x80, zeros and the length through `update` leaves exactly the padded message absorbed; the length is the one before padding |
| `Sha256.Hasher.Final` | android/app/src/main/cpp/sha256.cpp:58-70 | `out` holds the FIPS 180-4 digest of everything fed so far |
| `Sha256.DigestOfPieces` | android/app/src/main/cpp/sha256.cpp:48-70 | every way of cutting a message into updates, empty pieces included, gives the digest of the concatenation |
| `Hmac.PaddedKey` | android/app/src/main/cpp/sha256.cpp:76-80 | keys longer than a block are hashed, all others kept, and the rest of the block is zero |
| `Hmac.HmacSha256` | android/app/src/main/cpp/sha256.cpp:76-84 | the two-pass code is HMAC of section 2 of RFC 2104 for every key length |
| `Formats.HmacOfKey` | android/app/src/main/cpp/sha256.cpp:76-84 | the pads are the key filled with zeros and changed by 0x36 and 0x5c, byte by byte |
| `KeyDerivation.Obf` | android/app/src/main/cpp/obf.h:13-26 | the literal hidden at compile time is read back unchanged, whatever the source line |
| `KeyDerivation.HexRoundTrip` | lib/domain/secret_mask.dart:23-30 | hexadecimal pairs read back give the printed bytes |
| `KeyDerivation.FromHex` | android/app/src/main/cpp/ovs_core.cpp:17-25 | the loop reads digit pairs up to the first bad pair and drops an odd last digit |
| `KeyDerivation.Unmask` | android/app/src/main/cpp/ovs_core.cpp:38-46 | the C++ loop computes the native reader; no usable mask leaves the value as it is |
| `Utf8.EncodeDecode` | lib/domain/secret_mask.dart:32-40 | whatever the strict UTF-8 reader accepts (section 3 of RFC 3629), writing gives back the same octets |
| `Utf8.ReadWriteIff` | lib/domain/secret_mask.dart:37-40 | reading octets into a Dart string and writing it gives them back if and only if they are well formed and do not begin with a byte order mark |
| `KeyDerivation.UnmaskUndoesMask` | lib/domain/secret_mask.dart:17-40 | under every non-empty mask, at every index, the native reader recovers what `mask` embedded, and the Dart reader does if and only if the secret is well-formed UTF-8 without a byte order mark |
| `KeyDerivation.TextSurvivesMask` | lib/domain/secret_mask.dart:32-40 | `unmask` undoes `mask` on a Dart string without unpaired surrogates if and only if it does not begin with a byte order mark |
| `KeyDerivation.ReadersAgree` | lib/domain/secret_mask.dart:26-40 | the Dart and native readers give the same bytes if and only if the value is empty, there is no mask, or value and mask are hexadecimal pairs, the mask is not one lone digit, and the unmasked bytes are well-formed UTF-8 without a byte order mark |
| `KeyDerivation.DeriveFileKey` | android/app/src/main/cpp/ovs_core.cpp:54-84 | false exactly for a missing part; otherwise 4096 nested HMACs over the four mixed parts, generation, environment tag, salt and domain |
| `KeyDerivation.DartAssemble` | lib/domain/locked_config_codec.dart:98-110 | the assembly loop mixes the same parts in the same order, or throws for a missing part, a pair that is not hexadecimal, an unusable mask or malformed UTF-8 |
| `KeyDerivation.DartDeriveKey` | lib/domain/locked_config_codec.dart:115-138 | without the native core the Dart code computes the same nested HMACs over its own reading of the parts |
| `KeyDerivation.DerivationsAgree` | lib/domain/locked_config_codec.dart:98-138 | both derivations start from the same parts, hence give the same key for every salt, generation and tag, if and only if the readers agree on every part |
| `KeyDerivation.MaskedBuild` | lib/domain/secret_mask.dart:32-40 | in a build with masked parts the native derivation starts from the original secrets, and the Dart one does if and only if all of them are well-formed UTF-8 without a byte order mark |
| `KeyDerivation.NativeGateMac` | android/app/src/main/cpp/ovs_core.cpp:86-96 | the native token MAC is the HMAC of the token message under the unmasked, environment-tagged key, in hexadecimal |
| `Formats.MaskBytes` | lib/domain/secret_mask.dart:17-30 | byte i of what a build embeds is the secret's, changed by mask byte i, 31 times the index and 7 times i |
| `Formats.StopsAtBadPair` | android/app/src/main/cpp/ovs_core.cpp:17-25 | the native reader of hexadecimal gives the bytes in front of the first bad pair, and drops an odd digit |
| `Formats.NoUsableMask` | android/app/src/main/cpp/ovs_core.cpp:38-41 | without a mask that has a byte the native reader takes the value as it is |
| `Formats.DartFailsIff` | lib/domain/secret_mask.dart:26-40 | the Dart reader throws if and only if a pair is not hexadecimal, a value of some bytes has a mask of none, or the unmasked bytes are malformed UTF-8 |
| `Formats.MaterialOf` | android/app/src/main/cpp/ovs_core.cpp:57-66 | the key material is the four mixed parts in order, the generation and the environment tag, byte by byte |
| `Formats.RoundsOf` | android/app/src/main/cpp/ovs_core.cpp:68-79 | the file key ends a chain of 4096 HMACs from salt and domain |
| `Limiter.Limiter.Fail` | server/internal/gate/limiter.go:37-60 | the new table is the old one pruned when large, with the failure counted in one bucket and every other bucket untouched |
| `Limiter.OthersPruned` | server/internal/gate/limiter.go:40-46 | a failure keeps every other bucket, but in a table of more than 100000 exactly the ones that are neither blocking nor in a running window |
| `Limiter.PruningIsInvisible` | server/internal/gate/limiter.go:40-46 | over every run with clocks that do not go back, deleting stale buckets never changes an answer |
| `Limiter.BlockedOnlyAfterBurst` | server/internal/gate/limiter.go:30-60 | a blocked address had MaxFails failures within one window, the last less than BlockFor ago |
| `Limiter.ManyFailuresBlock` | server/internal/gate/limiter.go:47-59 | 2 * MaxFails - 1 failures within a window trigger a block, despite resets and pruning, whatever came before |
| `Limiter.AlwaysBlockedIff` | server/internal/gate/limiter.go:30-60 | n failures within a window leave an address blocked in every run if and only if blocks outlast the window and n reaches the threshold: 2 * MaxFails - 2 when they outlast two windows, else 2 * MaxFails - 1 (MaxFails itself when that is 1 or the window is empty) |
| `GateLimiter.LimiterSees` | server/internal/gate/gate.go:258-313 | over every run of requests the limiter's table is that of exactly these failures: unblocked, let through the proxy test, and a wrong nonce or a token that is no lock's |
| `GateLimiter.GateBlocksIff` | server/internal/gate/gate.go:258-313 | when blocks outlast the window, n failures of an address within it leave it blocked in the gate, in every run, if and only if n reaches 2 * MaxFails - 2 (MaxFails when that is 1 or the window is empty) |
| `Stats.Stats.RollTo` | server/internal/gate/stats.go:41-46 | a new day empties every counter, the same day changes nothing |
| `Stats.Stats.AllowIP` | server/internal/gate/stats.go:56-71 | allows without a cap, a known address, or a new one below the cap; nothing is recorded |
| `Stats.Stats.AcceptIP` | server/internal/gate/stats.go:73-87 | counts one admission and records the address while fewer than maxIPs are held |
| `Stats.Stats.RejectFor` | server/internal/gate/stats.go:89-94 | counts one refusal under its reason, after the roll |
| `Stats.AllowMeans` | server/internal/gate/stats.go:56-71 | everybody without a cap or on a new day, then the day's own addresses and new ones below the cap |
| `Stats.AcceptMeans` | server/internal/gate/stats.go:73-87 | within a day an admission changes its own lock only: one more, the time, and the address if there is room |
| `Stats.RejectMeans` | server/internal/gate/stats.go:89-94 | within a day a refusal adds one to its own reason and changes nothing else |
| `CapProtocol.ConcurrentCap` | server/internal/gate/gate.go:315-323 | under any interleaving and any day rolls, with at most k requests of a lock between check and recording, it never holds more than cap - 1 + k distinct addresses |
| `CapProtocol.ConcurrentCapIsTight` | server/internal/gate/stats.go:56-87 | for every cap, k >= 1 and enough room some run reaches that bound |
| `DailyCap.SequentialCap` | server/internal/gate/stats.go:41-87 | one request at a time, with the events of each day together and cap <= maxIPs, at most cap distinct addresses are admitted per lock and day |
| `DailyCap.AscendingDays` | server/internal/gate/stats.go:41-46 | a clock that never goes back to an earlier day keeps the events of each day together |
| `DailyCap.AdmittedStaysAdmitted` | server/internal/gate/stats.go:53-71 | under the same conditions an address admitted today is admitted again today |
| `DailyCap.CapHoldsIff` | server/internal/gate/stats.go:56-87 | the daily cap holds on every run that keeps the events of each day together if and only if cap <= maxIPs |
| `DailyCap.CapKeptIff` | server/internal/gate/stats.go:41-87 | for any times of the events, whoever visits, the cap is kept if and only if for every day the runs of its events have room for cap addresses together, each run for its length or cap |
| `DailyCap.RoomOfRun` | server/internal/gate/stats.go:41-46 | a run of events on a day that does not continue an earlier one adds the smaller of its length and cap to that room |
| `DailyCap.ClockGoingBack` | server/internal/gate/stats.go:41-46 | for every cap, a clock that comes back to a day with cap events after another day breaks it |
| `Token.DartCodeId` | lib/domain/gate_token.dart:45-48 | the handle cut from the hexadecimal digest is the one the gate prints from the first eight bytes |
| `Token.CodeIdPlain` | server/internal/gate/gate.go:53-56 | a handle has no upper-case letter and no white space |
| `Token.MacIsGateMac` | server/internal/gate/gate.go:58-62 | the Go message hashed in one piece gives the MAC of the native core |
| `Token.Check` | server/internal/gate/gate.go:98-131 | the branches and loops over parts, days and keys give the specified verdict and handle |
| `Token.PassesIffGenuine` | server/internal/gate/gate.go:98-131 | a token passes for a handle if and only if it has three parts, that handle is listed, its day is in the window, and its MAC is the listed entry's under some configured key |
| `Token.TokenPasses` | server/internal/gate/gate.go:65-68 | the token of a listed lock under a configured key passes while the two days differ by at most the skew |
| `Formats.TokenIs` | server/internal/gate/gate.go:53-68 | handle, day and MAC of a token, from the texts that are hashed |
| `Formats.RefusedEarly` | server/internal/gate/gate.go:98-108 | without keys, without a token, or with other than three parts, that is the verdict |
| `Formats.RefusedLate` | server/internal/gate/gate.go:105-131 | then the verdict is the first of: MAC length, handle, day number, window, MAC |
| `Token.DartCurrent` | lib/domain/gate_token.dart:51-63 | the app sends the token of `forKey` under its key as the native core reads it, or as Dart does without one, or throws |
| `Token.AppKeysAgree` | lib/domain/gate_token.dart:24-28 | with and without the native core the app uses the same key if and only if it is empty or the two readers agree on it |
| `Token.DaysAgree` | lib/domain/gate_token.dart:67-70 | the Dart and Go day numbers agree if and only if the time is from 1970 on or not in the last second above a midnight |
| `Token.ClientAgrees` | lib/domain/gate_token.dart:67-75 | the app and the gate compute the same token string under exactly that condition |
| `AllowList.ParseAllowList` | server/internal/gate/gate.go:140-159 | the loop gives the last-wins map of the lines, or the error of any malformed line, as the next two rows say from the text |
| `AllowList.ParseFailsIff` | server/internal/gate/gate.go:143-155 | a file fails to parse if and only if some line, after its comment is cut, has words but not two of which the first is 32 hexadecimal digits |
| `AllowList.ParseGives` | server/internal/gate/gate.go:152-158 | otherwise the map holds, for each id, the entry of the last line that has one |
| `AllowList.ScanIsSplit` | server/internal/gate/gate.go:140-146 | the scanner's lines mean what the editor's split pieces mean |
| `AllowList.ScanWritten` | server/internal/oversee/oversee.go:224-233 | lines written with a newline after each are scanned back unchanged |
| `AllowList.PrintRoundTrip` | server/internal/oversee/oversee.go:224-243 | a printed entry is one line that parses back to the same entry |
| `Editor.ReadLinesParse` | server/internal/oversee/oversee.go:350-363 | the editor's lines of a file mean what the gate parses from it |
| `Editor.ParseLineMeaning` | server/internal/oversee/oversee.go:195-204 | on a single line the editor sees an entry exactly when the gate does |
| `Editor.AddLock` | server/internal/oversee/oversee.go:208-234 | refuses and writes nothing, or writes every line without the added id followed by the new entry |
| `Editor.AddLockSets` | server/internal/oversee/oversee.go:206-234 | after a successful add the gate parses the old map with exactly that id set |
| `Editor.AddLockKeepsLines` | server/internal/oversee/oversee.go:218-233 | every other line, comments included, keeps its text and order |
| `Editor.WithoutMeans` | server/internal/oversee/oversee.go:222-228 | of the old lines exactly those that list the added id are left out |
| `Editor.FindHits` | server/internal/oversee/oversee.go:252-266 | the loop collects exactly the lines whose handle or code starts with the typed prefix, and the entry of the last |
| `Editor.RevokeLock` | server/internal/oversee/oversee.go:245-278 | no match, an ambiguous prefix, or the file without the one matching line |
| `Editor.OutcomeIs` | server/internal/oversee/oversee.go:246-277 | less than four characters, no line hit, two lines hit, or the entry of the one line, exactly |
| `Editor.RevokeRemoves` | server/internal/oversee/oversee.go:245-278 | a successful revocation leaves a parsable file with every other id unchanged; the id itself is gone if and only if no other line carries it |
| `Editor.RevokeKeepsLines` | server/internal/oversee/oversee.go:267-277 | exactly the one matching line goes, all others keep text and order |
| `Editor.RevocableIff` | server/internal/oversee/oversee.go:243-278 | some typed text removes a line if and only if the line's id, or the part of its code before the first upper-case letter, hits no other line |
| `Editor.CodeIdsArePlain` | server/internal/gate/gate.go:53-56 | the ids that CodeID gives are sixteen lower-case characters without white space, as the statement above asks |
| `Editor.LowerCodeRevocableIff` | server/internal/oversee/oversee.go:243-278 | a line whose code has no upper-case letter can be revoked if and only if no other line carries that code |
| `Editor.WholeCodeHitsIff` | server/internal/oversee/oversee.go:246-262 | typing a whole code finds its line if and only if the code has no upper-case letter |
| `Editor.DuplicateNeverRevoked` | server/internal/oversee/oversee.go:252-266 | a code listed on two lines cannot be revoked with any prefix |
| `Editor.RevokeUndoesAdd` | server/internal/oversee/oversee.go:208-278 | revoking by its id a lock just added, which no line of the file resembles, gives back the old lines and what the gate parses from them |
| `Editor.LocksAreTheGates` | server/internal/oversee/oversee.go:181-193 | the displayed locks, folded with the last one winning, are what the gate serves |
| `HotReload.AllowListFile.Reload` | server/internal/gate/gate.go:182-198 | a failed open or parse keeps list and time; success installs both |
| `HotReload.AllowListFile.WatchTurn` | server/internal/gate/gate.go:201-214 | one turn of the watcher: an unchanged time does nothing, otherwise a reload, and after a failed one the time of the stat is recorded |
| `HotReload.RunSafe` | server/internal/gate/gate.go:182-216 | over every interleaving of stats, opens, finishes and replacements with distinct times, the served list is the parse of a version that parses and versions never go back |
| `HotReload.QuietPollInstallsIff` | server/internal/gate/gate.go:201-214 | an undisturbed poll serves a parsable current version if and only if it was not recorded as seen without being served |
| `HotReload.LostIff` | server/internal/gate/gate.go:201-214 | over every run with distinct times the current version is lost if and only if it parses and an open failed after a stat that saw it |
| `HotReload.LastGoodEditInstalledIff` | server/internal/gate/gate.go:201-214 | from a successful start, after any interleaving, one full poll after the last good edit serves it if and only if no open failed after a stat that saw that edit |
| `HotReload.LastGoodEditInstalled` | server/internal/oversee/oversee.go:367-386 | if opens succeed, one full poll after the last good edit serves it |
| `HotReload.LaterEditRepairs` | server/internal/gate/gate.go:201-214 | after a lost version an edit with a new time is served by one full poll |
| `HotReload.BadEditKeepsList` | server/internal/gate/gate.go:188-193 | every step keeps the served list or replaces it by the parse of the version it found |
| `HotReload.BadVersionNeverServed` | server/internal/gate/gate.go:188-193 | over every run with distinct times the served list is the parse of a version without a bad line |
| `HotReload.PollKeepsListFromBad` | server/internal/gate/gate.go:200-214 | an undisturbed poll that finds a version with a bad line keeps the served list |
| `HotReload.FailedOpenLoses` | server/internal/gate/gate.go:201-214 | an open failing after the stat loses a good version for good |
| `HotReload.EqualTimesLose` | server/internal/gate/gate.go:201-214 | a replacement with the recorded modification time is never served |
| `ClientIp.Contains` | server/internal/gate/proxy.go:139-149 | the loop over the networks finds a containing one exactly when there is one |
| `ClientIp.ResolveClientIP` | server/internal/gate/proxy.go:159-190 | the branches per provider and the loop from the right give the specified address |
| `ClientIp.HeadersNeedTrust` | server/internal/gate/proxy.go:159-168 | for an untrusted peer or without a provider no header changes the answer |
| `ClientIp.LeftEntries` | server/internal/gate/proxy.go:172-187 | entries to the left matter only when every entry to their right is one of our proxies |
| `ClientIp.ClientLinesIgnored` | server/internal/gate/proxy.go:172-187 | header lines a client adds in front never change the answer unless the proxies' lines name only proxies |
| `ClientIp.RightmostUntrusted` | server/internal/gate/proxy.go:172-187 | the answer is the rightmost untrusted address when everything to its right parses and is trusted |
| `ClientIp.ProviderHeaders` | server/internal/gate/proxy.go:167-176 | behind Cloudflare or Fastly its own header names the client if it is one address, else the proxy stands for it |
| `ClientIp.GenericAddress` | server/internal/gate/proxy.go:177-190 | behind any other proxy the rightmost entry of all X-Forwarded-For lines that is no proxy of ours names the client, if it is an address |
| `Handler.Handler.ServeHTTP` | server/internal/gate/gate.go:258-325 | one request: the outcome and the whole new state of limiter and statistics |
| `HandlerRuns.ForwardedIff` | server/internal/gate/gate.go:258-325 | a request is forwarded if and only if it is not a probe, came over the proxy where demanded, the cap has room, and its token is one computed from a listed entry under a configured key for a day in the window |
| `HandlerRuns.OutcomeIs` | server/internal/gate/gate.go:258-325 | every outcome and reason, from what the request carries |
| `HandlerRuns.RefusalCounted` | server/internal/gate/gate.go:296-319 | a refusal is counted under its own reason, and nothing else |
| `GateCap.GateCapIff` | server/internal/gate/gate.go:292-325 | over every run whose clocks do not go back to an earlier day, with 1 <= cap <= maxIPs, a request is forwarded if and only if it is no probe, came over the proxy where demanded, its token is genuine, and its address was forwarded for the lock that day or fewer than cap were; so never more than cap |
| `GateCap.NoCap` | server/internal/gate/gate.go:315-324 | without statistics or cap only the token decides |
| `HandlerRuns.LimiterNeverDecides` | server/internal/gate/gate.go:268-271 | two gates that differ only in limiter state and settings forward the same requests over every run without probe paths |
| `HandlerRuns.BlockNeverExtended` | server/internal/gate/gate.go:294-305 | while an address is blocked, no run of requests changes its bucket |
| `HandlerRuns.OneCount` | server/internal/gate/gate.go:258-325 | whatever the two clocks say, a request adds exactly one to the sum of admissions and refusals of the day on which it is counted, unless it is a probe that reaches the nonce check: that changes no counter |
| `HandlerRuns.EveryRequestCounted` | server/internal/gate/gate.go:258-325 | over a run within one day that sum grows by the number of requests but for those probes |
| `Settings.LoadSettings` | server/internal/oversee/oversee.go:110-152 | the loop over the lines gives the specified settings; a missing file gives the defaults |
| `SettingsMeaning.TextNames` | server/internal/oversee/oversee.go:121-144 | after a line that sets a text, that field holds the value and no other field changes |
| `SettingsMeaning.SwitchNames` | server/internal/oversee/oversee.go:130-138 | the words that turn the switches on and off |
| `SettingsMeaning.NumberNames` | server/internal/oversee/oversee.go:132-148 | a line with a number sets its own field to the number its value begins with |
| `Settings.RoundTripIff` | server/internal/oversee/oversee.go:154-169 | loading what was saved gives the settings back if and only if every text is trimmed and on one line |
| `Settings.SetSetting` | server/internal/oversee/oversee.go:467-538 | refuses without writing, or writes the loaded settings with one change |
| `Settings.SetChangesOnly` | server/internal/oversee/oversee.go:467-538 | from any file, a change with a one-line value loads back as exactly that change |
| `SettingsMeaning.SetTexts` | server/internal/oversee/oversee.go:470-523 | each text is set by its own name |
| `SettingsMeaning.SetSwitches` | server/internal/oversee/oversee.go:500-513 | the address limit is on for four words; refusing direct connections needs a CDN |
| `SettingsMeaning.SetCdns` | server/internal/oversee/oversee.go:489-499 | one of three CDNs, or none, which lets direct connections in again |
| `SettingsMeaning.SetNumbers` | server/internal/oversee/oversee.go:483-529 | each number is set by its own name, within its range |
| `SettingsMeaning.SetUpstreams` | server/internal/oversee/oversee.go:473-480 | a bare port is on the loopback address; anything else needs a colon |
| `Settings.RunStaysSound` | server/internal/oversee/oversee.go:467-538 | after any run of one-line changes, refusing direct connections implies a CDN, and token days, port, lock and leak numbers are in range |
| `Percent.RoundTrip` | lib/domain/config_draft.dart:361-411 | percent-decoding undoes percent-encoding if and only if the text is well-formed UTF-8, for components and query components (section 2.1 of RFC 3986) |
| `Percent.DecodesOne` | lib/domain/config_draft.dart:179-187 | characters stand for themselves, a plus for a space in queries only, and a character that is not ASCII is refused |
| `Percent.DecodesEscape` | lib/domain/config_draft.dart:179-187 | an escape with digits of either case is a byte, any other is refused |
| `Percent.NoSeparators` | lib/domain/config_draft.dart:400-409 | an encoded parameter contains no separator |
| `Percent.QueryRoundTrip` | lib/domain/config_draft.dart:361-411 | a printed query is read back as the same map, in whatever order it was printed |
| `Percent.MoreParameters` | lib/domain/xray_config_builder.dart:277-279 | the last parameter of a name counts, without an equals sign it is blank, and a nameless one is dropped |
| `LinkParameters.BuildsIff` | lib/domain/xray_config_builder.dart:277-328 | a link builds if and only if user, host and port are given, transport and security layer are known, and Reality has a public key |
| `LinkParameters.OutboundMatches` | lib/domain/xray_config_builder.dart:445-533 | every field of the outbound, from the parameter it comes from |
| `LinkParameters.SetAccount` | lib/domain/xray_config_builder.dart:283-297 | encryption and flow change their own field of a vless account only |
| `LinkParameters.SetPath` | lib/domain/xray_config_builder.dart:451-492 | `path` changes the path of the transport only, where it has one |
| `LinkParameters.SetHost` | lib/domain/xray_config_builder.dart:451-506 | `host` changes the host of the transport, and the name of a TLS layer without one |
| `LinkParameters.SetMode` | lib/domain/xray_config_builder.dart:472-492 | `mode` changes the mode of xhttp and the multi mode of grpc only |
| `LinkParameters.SetGrpc` | lib/domain/xray_config_builder.dart:472-478 | service name and authority of grpc change their own field only |
| `LinkParameters.SetTls` | lib/domain/xray_config_builder.dart:500-515 | each TLS parameter changes its own field only |
| `LinkParameters.SetReality` | lib/domain/xray_config_builder.dart:516-528 | each Reality parameter changes its own field only; without a public key the link no longer builds |
| `LinkParameters.OthersChangeNothing` | lib/domain/xray_config_builder.dart:445-533 | a parameter of another transport, security layer or scheme changes nothing |
| `Draft.ConfigDraft.ReadAccount` | lib/domain/config_draft.dart:179-198 | takes encryption and flow of a vless link out of the query into the form |
| `Draft.ConfigDraft.ReadStream` | lib/domain/config_draft.dart:200-223 | fills transport and security fields, leaving exactly the parameters the form does not know |
| `Draft.FromUri` | lib/domain/config_draft.dart:179-223 | the opened form is the one the link means; null exactly for malformed percent-coding or malformed UTF-8 under it |
| `FormEdits.OpenedForm` | lib/domain/config_draft.dart:179-223 | a link opens if and only if its user information can be decoded, and every field is then its own parameter or the default |
| `Draft.ConfigDraft.UriLink` | lib/domain/config_draft.dart:361-411 | the link written from the form, field by field and condition by condition |
| `DraftMeaning.EditingPreservesMeaningIff` | lib/domain/xray_config_builder.dart:277-328 | for every vless and trojan link that builds, opening and saving it unchanged builds the same outbound if and only if the listed parameters are trimmed and TLS does not rely on a dropped `host` |
| `DraftMeaning.UnknownParametersSurvive` | lib/domain/config_draft.dart:361-411 | every parameter without a field is written back unchanged |
| `DraftMeaning.DroppedHostChangesMeaning` | lib/domain/xray_config_builder.dart:496-505 | a trojan link over plain TCP whose server name is only in `host` loses it |
| `DraftStable.SecondSaveSameIff` | lib/domain/config_draft.dart:386-393 | a second save writes the link of the first one if and only if no fingerprint was left blank under TLS or Reality |
| `FormEdits.ChosenKinds` | lib/domain/config_draft.dart:371-372 | the outbound that the saved link builds has the transport and security layer chosen in the form |
| `FormEdits.EditPath` | lib/domain/config_draft.dart:373-381 | changing the path in the form changes the path of that outbound and nothing else |
| `FormEdits.EditHost` | lib/domain/config_draft.dart:373-381 | changing the host changes the host and the name of a TLS layer without one; nothing over grpc or plain TCP |
| `FormEdits.EditMode` | lib/domain/config_draft.dart:382-386 | changing the mode changes the mode of xhttp or the multi mode of grpc, and nothing else |
| `FormEdits.EditName` | lib/domain/config_draft.dart:387-390 | changing the server name changes that of TLS or Reality, and nothing else; `EditFingerprint`, `EditAlpn`, `EditPinnedCert`, `EditVerifyName`, `EditPublicKey`, `EditShortId`, `EditSpiderX` and `EditService` say the same of their fields |
| `FormEdits.EditAccount` | lib/domain/config_draft.dart:367-370 | changing flow or encryption changes that field of a vless account, and nothing else |
| `FormEdits.EditSecret` | lib/domain/config_draft.dart:408-410 | changing the secret changes the id or the password, trimmed, and nothing else; `EditAddress` and `EditPort` say the same of theirs |
| `FormEdits.NothingIdle` | lib/domain/config_draft.dart:361-403 | every parameter that the form itself writes is one the builder reads for that transport and security layer |
| `Base64.RoundTrip64` | lib/domain/config_draft.dart:294-303 | strict decoding undoes standard base64 (section 4 of RFC 4648) |
| `Base64.DecodedIsEncoded` | lib/domain/xray_config_builder.dart:546-550 | and takes nothing else: whatever it decodes is the encoding of what it gives |
| `Base64.PadLoop` | lib/domain/config_draft.dart:294-303 | the loop adds the padding that completes a group of four, and no more |
| `Base64.RepadRestores` | lib/domain/config_draft.dart:440-445 | mapping the alphabet back and padding again gives the standard encoding |
| `Base64.UrlRoundTrip` | lib/domain/config_draft.dart:440-445 | decoding undoes the unpadded URL form (section 5 of RFC 4648) on every byte string |
| `Shadowsocks.ReadersAgree` | lib/domain/xray_config_builder.dart:546-550 | whatever the builder's reader decodes, the form's reader decodes to the same bytes |
| `Shadowsocks.NormalForm` | lib/domain/config_draft.dart:260-292 | every plain, base64 and legacy link that builds is opened, and the link written builds a server with the same method, address, port and trimmed password: the same server if and only if the password was trimmed |
| `Shadowsocks.Base64Link` | lib/domain/xray_config_builder.dart:396-420 | a link with base64 user information builds the server with that method, password, host and port |
| `Shadowsocks.PlainLink` | lib/domain/xray_config_builder.dart:396-420 | so does one with plain user information |
| `Shadowsocks.LegacyLink` | lib/domain/xray_config_builder.dart:407-420 | and one that is base64 as a whole |
| `Der.ReadTlv` | lib/core/http_client.dart:43-55 | the loop over the length octets finds tag, start, value and end, or runs off the data |
| `Der.ReadElement` | lib/core/http_client.dart:43-55 | reading at any definite-length element (section 8.1.3 of X.690) finds exactly its contents and end |
| `Der.ExtractSpki` | lib/core/http_client.dart:14-31 | the walk computes the specified slice, or fails |
| `Der.ExtractsTheKey` | lib/core/http_client.dart:14-31 | for every certificate made of definite-length elements, with or without version, the result is exactly the encoded subjectPublicKeyInfo (section 4.1 of RFC 5280) |
| `Migration.MigratedMembers` | lib/data/config_store.dart:112-124 | every config but those whose link begins with `locked:` is in the migrated list, itself or, if it came from a locked file, flagged and without its server; nothing else is, and no link there begins with `locked:` |
| `Migration.MigrateConcat` | lib/data/config_store.dart:112-124 | config by config, so in the order of the old list |
| `Migration.SettledMeans` | lib/data/config_store.dart:107-140 | what an undisturbed migration leaves, field by field and for every kind of disk |
| `Migration.ConfigStore.MigrateIfNeeded` | lib/data/config_store.dart:107-140 | the whole new disk state of an undisturbed migration, its failures included |
| `Migration.ConfigStore.Add` | lib/data/config_store.dart:70-79 | migrates, then stores the loaded configs followed by those with a new link |
| `Migration.AddCounts` | lib/data/config_store.dart:70-79 | stored configs stay in place and in number, and every new link is stored exactly once |
| `Migration.AddSettles` | lib/data/config_store.dart:70-79 | adding the same configs again changes nothing |
| `Migration.NothingIsLost` | lib/data/config_store.dart:99-140 | over any run of overlapping loads and adds with crashes at every await, and of other saves whose lists keep the migrated configs, the legacy copy is intact or the vault holds, for every legacy config whose link does not begin with `locked:`, one with the same id, name, link, code and expiry, equal to it or flagged and without its server |
| `Migration.ReplaceIsSafeIff` | lib/providers.dart:38-42 | a list saved without loading, at any moment of such a run, never loses a legacy config afterwards if and only if it holds the migrated ones, or the legacy copy is there and no call has saved and not yet wiped it |
| `Migration.WipedOnlyWhenHeld` | lib/data/config_store.dart:130-138 | the step that wipes the legacy copy finds all of those in the vault |
| `Migration.UndisturbedCallSettles` | lib/data/config_store.dart:107-140 | a call that nothing interrupts finishes within six awaits with the result of the undisturbed migration |
| `Migration.CopiesStored` | lib/data/config_store.dart:107-140 | after any number of launches of one call each, cut short anywhere, the vault holds the old configs and one copy of the migrated ones for every save, and the legacy copy is intact or wiped |
| `Migration.DuplicatesIff` | lib/data/config_store.dart:125-139 | with one call a launch, the launch that completes the migration leaves what an undisturbed one leaves if and only if no launch before the wipe was cut between the save and the wipe |
| `MigrationCopies.CopiesCounted` | lib/data/config_store.dart:107-140 | at every moment of every run of overlapping loads and crashes the vault holds the old configs and exactly the counted copies of the migrated ones, a save having one more than its call read |
| `MigrationCopies.EverDoubledIff` | lib/data/config_store.dart:125-130 | over every such run the vault comes to hold a second copy if and only if some call saves a list for which it had read the vault after an earlier save |
| `MigrationCopies.LeavesSettledIff` | lib/data/config_store.dart:125-130 | the vault is what an undisturbed migration leaves if and only if one copy is counted |
| `MigrationCopies.OverlapDoubles` | lib/data/config_store.dart:60-65 | two overlapping loads without a crash double the configs of every store that can be migrated |
| `Merge.Merge` | lib/domain/subscription.dart:122-139 | the loop gives the specified list |
| `Merge.MergedMembers` | lib/domain/subscription.dart:119-139 | a member is an untouched config from elsewhere, or the first fetched one with a link not held elsewhere, under its old id if there was one |
| `Merge.OthersUntouched` | lib/domain/subscription.dart:127-132 | configs from elsewhere keep value and order, in front |
| `Merge.FetchedInOrder` | lib/domain/subscription.dart:130-137 | fetching one config more leaves the list as it is or adds to its end |
| `Merge.EveryLinkCounted` | lib/domain/subscription.dart:131-137 | every link occurs as often as elsewhere, and exactly once more if it was fetched and is not held elsewhere |
| `Merge.LinksStayDistinct` | lib/domain/subscription.dart:131-137 | the result has no duplicate link if and only if the configs from elsewhere have none |
| `Merge.IdsStayDistinct` | lib/domain/subscription.dart:135-136 | with fresh ids on the fetched configs no two configs share an id afterwards |
| `Merge.RefreshTwice` | lib/domain/subscription.dart:119-139 | refreshing again with the same list changes nothing, whatever ids it comes with |

## Left out

What the repository does and the model does not:

- HTTP serving, the reverse proxy's copying of bytes, TLS, systemd, file permissions and the rename inside an atomic write.
- The SQLite store and the `api` package, the Kotlin VpnService, all screens and the terminal UI, ads, scripts.
- Cryptographic strength, AES-GCM, Ed25519 and the envelope of locked files.
- vmess links, and building a draft from scratch or validating its fields.
- The gate header that the builder adds to an outbound: it is a function of the outbound, which is proved to be kept.
- The grammars of URIs and JSON: links arrive already taken apart into host, port, user information and query, except
  that queries and shadowsocks links are parsed from text. Query names are a datatype, one constructor for each name
  the builder or the form knows.
- Unicode white space and case, and a byte order mark in front of a decoded part of a link, which Dart drops and also trims.
- The remark of a link: it becomes the name of the config and never reaches the outbound.
- A sign or white space inside a hexadecimal pair, which `int.parse` accepts; every other bad pair makes the Dart reader throw.
- Dart strings with unpaired surrogates, which its UTF-8 writer replaces.
- The 64 KB line limit of Go's scanner, and the saturation of durations after about 292 years.
- Reading the settings of trusted proxies and keys from their files, which has the shape of the allow-list's reload; adding and
  removing keys; the snapshot file of the statistics.
- The nonce of the probe path: whether it matches is an input of the request.
- What updating and removing a config, or a subscription refresh, put into the list they save: to the migration it is any list at any time.
- Mutual exclusion itself: each critical section is one step, so a request is at most the two steps of `CapProtocol`.
- Buckets and per-lock counters are values inside a map, so the model does not show that the Go code holds pointers to them.

Statements that say less than a reader might expect:

- HotReload.LastGoodEditInstalledIff: assumes distinct modification times; without them `HotReload.QuietPollInstallsIff` still says what one poll does.
- DailyCap.SequentialCap: assumes that the events of each day are together, as an ascending clock has them; `DailyCap.CapKeptIff` is about every clock.
- HandlerRuns.EveryRequestCounted: is about runs within one day; `HandlerRuns.OneCount` is about every clock.
- Shadowsocks.NormalForm: does not model percent-escapes in the host, nor `%3D` as base64 padding, which the client also accepts.
- GateCap.GateCapIff: assumes that neither clock goes back to an earlier day; `DailyCap.CapKeptIff` is about every clock.
- GateLimiter.GateBlocksIff: assumes a clock that does not go back, and blocks that outlast the window, as the daemon's do;
  `Limiter.AlwaysBlockedIff` is about every setting of the limiter itself.
- FormEdits.EditName: a blank name under TLS is named by the host, which `FormEdits.EditHost` describes.
- FormEdits.EditPublicKey: asks for a key, since Reality without one does not build (`LinkParameters.BuildsIff`).
- HandlerRuns.ForwardedIff: asks that no listed id has a dot, as no CodeID has (`Token.CodeId`).
- Settings.RunStaysSound: is about values without a newline; `Settings.RoundTripIff` says exactly which settings survive a save.
- DraftMeaning.EditingPreservesMeaningIff: is about vless and trojan links whose host is a name or a bracketed IPv6 literal, as every parsed link has it.
- Draft.ConfigDraft.UriLink: describes the written query as a map; the order of its parameters does not matter, by `Percent.QueryRoundTrip`.
- Draft.ConfigDraft.ReadStream: the form's fields are one record that the methods reassign.
- Migration.NothingIsLost: concurrent adds may overwrite each other's additions; only what the legacy store held is promised to survive.
- MigrationCopies.EverDoubledIff: is about loads; a run in which configs are also added or replaced is left to `Migration.NothingIsLost`.
- Merge.OthersUntouched: asks that the fetched configs carry the subscription's reference, which the parser of a subscription gives them.
- Merge.RefreshTwice: asks the same, and that only ids differ between the two fetches.
- Sha256.Block: the eight working variables are one value that each round replaces, and the words of the block are read by index.
