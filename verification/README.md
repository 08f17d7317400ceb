# Verified model of the ds2api gateway

ds2api puts OpenAI-, Anthropic- and Gemini-shaped APIs in front of pooled web-chat accounts. This project models the
parts of it whose correctness is hardest to see, in Dafny, and proves what they promise for all inputs, runs and
interleavings. `dafny verify dfyconfig.toml` verifies all of it.

| files | what they model |
|---|---|
| `Word64`, `Fips202`, `Keccak`, `Sponge`, `BitSponge`, `Pow` | the proof-of-work search: 64-bit words, the permutation steps of sections 3.2 and 3.3 of FIPS 202 bit by bit, the unrolled permutation, the sponge of section 4 over bytes and over bits, the nonce search from a reused midstate |
| `FoldText`, `Marker`, `MarkerPieces` | the tool-call marker: rewriting prompts, and rewriting a chunked stream back |
| `HtmlNames`, `RepeatGuard`, `ToolRoleGuard`, `ContentPolicy`, `RepeatRuns`, `PolicyRuns` | the detectors that cut a degenerate stream, fed in arbitrary fragments, and the texts they cut, written out |
| `Pump`, `Parser`, `PumpRuns`, `ParserKinds` | the accumulating line pump, the parser with its thinking/text cursor, what is sent when, and what counts as text |
| `Pool`, `PoolRules`, `Slots`, `SlotRuns`, `Retry` | the account pool, the turns it gives, the slot ledger of concurrent requests, what a request goes through, the retry loops |
| `ApplyLock`, `ApplyRuns` | the serialisation of Manager.Apply by a mutex, a flag and channels |
| `ChatHistory`, `HistoryRules`, `Reopening` | the write-back chat-history store over a directory whose operations may fail, what it records, and when such a directory opens again |
| `JsonSplit` | the splitter of comma-joined JSON values |
| `Binding`, `BindingRules`, `BindingRuns`, `ApiPortRun` | node binding and port allocation, what they mean for one account, and two runs that end badly |
| `DevicePool`, `Elastic` | device-id balancing, the elastic account pool |
| `Basics` | missing values, int64, a few facts about sequences and sets |

Code that changes objects or arrays step by step is a class or a method over arrays, proved against a function of the
old state; what the code promises is then proved about that function, and about whole runs of it. A Go string is a
sequence of bytes, one `char` each. Calls into libraries and services (trimming, case tables, JSON decoding, hashes that
name things, clocks, logins, upstream answers, disk operations) are parameters or arbitrary choices, so every theorem
holds whatever they answer. `Store.FindAccount` is taken to return an account with the identifier it was asked for.

## Where the code and its own description differ

The model follows the code. Each point below is a lemma, with the exact condition where there is one.

- Marker normalisation does not need an unbordered marker, although the comment at internal/toolcall/marker.go:82-88 says
  that a bordered one must never be used: `Marker.ChunkingDoesNotMatter` holds for every marker. The prompt rewriting is
  where borders matter, and the exact condition is milder than a border length of zero (`Marker.RoundTripIff`). The
  length has to be taken of the upper-cased marker (`Marker.MixedCaseMarkerFails`).
- The repetition guard gives the same verdict for every fragmentation except for tags of exactly 513 bytes
  (`RepeatGuard.FragmentationIrrelevantIff`, `RepeatGuard.LongTagsDependOnSplit`). Behind the role guard only those
  tags are affected before whose last byte that guard holds nothing back (`ContentPolicy.CutIgnoresSplitsIff`,
  `ContentPolicy.TenLongTagsDependOnSplit`).
- The pump can send the end-of-stream result before thinking that was received earlier: exactly when the last line with
  content ends in thinking that comes after text still buffered or in the same line (`Pump.StopIsLastIff`,
  `Pump.LineExposesIff`, `Parser.StopOvertakesIff`, `Parser.StopOvertakesThought`). Nothing is lost: the thinking follows
  in the final flush.
- A pool reset that drops an account in use forgets its slots; queued again, the account can be oversold
  (`Slots.ResetIsExactIff`, `Slots.DroppedAccountIsOversold`).
- Refreshing a subscription does not unbind accounts from nodes that disappeared, as internal/mihomo/binding.go:302-303
  says: the binding stays, its port is freed, and another node may get it (`Binding.StaleBindingSurvives`,
  `Binding.RefreshKeepsBackedIff`, `Binding.StalePortIsShared`, with a run in `BindingRuns.RefreshSharesListener`).
  Deleting the subscription then leaves such an account bound as well (`Binding.DeletionFreesIff`).
- The validator looks for an API port that is also a listener only in a range that shrinks with the port map. After
  many bindings and a deletion, new settings can put the API port on a listener (`Binding.SettingsClashIff`,
  `ApiPortRun.ApiPortClashIsReachable`); none of the other transactions modelled here does
  (`Binding.TransactionKeepsApart`).
- Migrating a legacy chat history loses entries on disk: one whose id has surrounding space, and one whose id is the
  trimmed id of an evicted entry (`ChatHistory.LegacySaved`, `ChatHistory.PaddedIsLost`, `ChatHistory.TwinIsLost`).
- A save removes files before it writes the index. When it fails in between, the index names a file that is gone, and
  the directory does not open again unless a later save succeeds. `Reopening.FailedOperationReopensIff` tells exactly
  which operations can do that in any state, `Reopening.FlushedOperationReopensIff` after a successful save: never an
  update, always the deletion of an entry or the clearing of a history that is not empty, a start only when the history
  is full and some entry is not newer, a new limit only below the number of entries. `Reopening.DeletionBlocksTheStore`
  is a run.
- Revisions of the chat history increase except at the end of the int64 range (`ChatHistory.RevisionIncreasesIff`).

## Model

| member | source | states |
|---|---|---|
| `Word64.RotationMovesBits` | pow/deepseek_hash.go:16 | the two-shift rotation moves every bit k places to the left, cyclically |
| `Fips202.OffsetsFollowTheWalk` | pow/deepseek_hash.go:62-86 | the rotation offsets behind the unrolled rotations are the ones the walk of section 3.2.2 of FIPS 202 assigns, one per step |
| `Fips202.TableIsGenerated` | pow/deepseek_hash.go:7-14 | every entry of the round-constant table is the constant Algorithms 5 and 6 of FIPS 202 generate for that round |
| `Keccak.ThetaIsUnrolled` | pow/deepseek_hash.go:26-60 | the unrolled column mixing equals the bit-by-bit theta, on every state |
| `Keccak.RhoPiOnLanes` | pow/deepseek_hash.go:62-86 | lane (x, y) after rho and pi is one rotated lane of the state, by the offset reduced modulo 64 |
| `Keccak.RhoPiIsUnrolled` | pow/deepseek_hash.go:62-86 | the 25 unrolled rotations and moves equal the bit-by-bit rho followed by pi |
| `Keccak.ChiIsUnrolled` | pow/deepseek_hash.go:88-112 | the 25 unrolled row combinations equal the bit-by-bit chi |
| `Keccak.RoundIsUnrolled` | pow/deepseek_hash.go:25-115 | one unrolled round equals iota after chi after pi after rho after theta, for every round index |
| `Keccak.RunRounds` | pow/deepseek_hash.go:25-115 | the loop composes the reference rounds 1 to 23, and not round 0 |
| `Keccak.LanesAndStatesCorrespond` | pow/deepseek_hash.go:117-121 | reading the 25 lanes back into the array loses no lane and moves none |
| `Keccak.KeccakF23` | pow/deepseek_hash.go:18-122 | the array ends as the reference rounds 1 to 23 of what it held |
| `Sponge.PackThenUnpack` | pow/deepseek_hash.go:147-151 | bits packed into little-endian bytes are read back as the same bits |
| `Sponge.UnpackThenPack` | pow/deepseek_hash.go:131-133 | bytes read as bits and packed again are the same bytes |
| `Sponge.WordMatches` | pow/deepseek_pow.go:39-44 | a word equals the little-endian word of eight bytes exactly when it is stored as those bytes |
| `Sponge.XorBlockInto` | pow/deepseek_hash.go:131-133 | the first 17 lanes are xored with the block, the other 8 stay |
| `Sponge.AbsorbWholeBlocks` | pow/deepseek_hash.go:129-136 | the loop absorbs every whole 136-byte block and stops with less than a block left |
| `Sponge.FinalBlock` | pow/deepseek_hash.go:138-141 | the last block is the SHA-3 padding of the rest, also when 0x06 and 0x80 meet in its last byte |
| `Sponge.AbsorbInTwoParts` | pow/deepseek_hash.go:130-136 | absorbing a concatenation of whole blocks is absorbing its parts one after the other |
| `Sponge.HashFromMidstate` | pow/deepseek_pow.go:46-59 | once the whole blocks of a message are absorbed, its final state depends only on that state and the padded tail |
| `Sponge.HashWith` | pow/deepseek_hash.go:125-153 | the digest is the first 32 bytes of the sponge of section 4 of FIPS 202 with rate 136 over the padded message |
| `Sponge.DeepSeekHashV1` | pow/deepseek_hash.go:125-153 | the one-shot hash is that sponge over Keccak rounds 1 to 23 |
| `BitSponge.BitOfState` | pow/deepseek_hash.go:117-121 | bit z of lane (x, y) is bit 64(5y + x) + z of the state as a bit string, section 3.1.2 of FIPS 202 |
| `BitSponge.PaddingIsPad101` | pow/deepseek_hash.go:138-141 | the padding bytes are the suffix 01 and then pad10*1 of section 5.1, for every length |
| `BitSponge.XorBlockInBits` | pow/deepseek_hash.go:131-133 | xoring a block into the lanes is xoring its bits and the capacity zeros into the bit string |
| `BitSponge.HashIsSponge` | pow/deepseek_hash.go:125-153 | the hash is the first 256 bits of SPONGE[f, pad10*1, 1088] of section 4 over the bits of the message and 01, for every message |
| `Pow.DecimalReadsBack` | pow/deepseek_pow.go:70-82 | the decimal numeral has digits only and no leading zero, and reads back as the number |
| `Pow.PrefixIs` | pow/deepseek_pow.go:24-27 | the prefix is the salt, an underscore, a numeral that reads back as the expiry, also a negative one, and an underscore |
| `Pow.PrefixOfTestSalt` | pow/deepseek_pow.go:24-27 | for instance |
| `Pow.DecodeHexIff` | pow/deepseek_pow.go:35 | the challenge decodes to exactly the bytes it spells, two digits of either case for each, the high one first |
| `Pow.DecodeHexFailsIff` | pow/deepseek_pow.go:35-38 | it does not decode exactly when some character is no hexadecimal digit |
| `Pow.RenderDigits` | pow/deepseek_pow.go:70-82 | the digit loop leaves exactly the decimal numeral of n at the end of the 20-byte buffer |
| `Pow.LongTail` | pow/deepseek_pow.go:95-112 | a tail of 136 to 271 bytes is one full block and one padded block of the remainder, 136 included |
| `Pow.FinishFromMidstate` | pow/deepseek_pow.go:83-112 | either tail branch leaves the state that absorbing the padded tail would, for every tail length |
| `Pow.AbsorbPrefix` | pow/deepseek_pow.go:46-59 | the prefix is absorbed up to its last whole block, once |
| `Pow.TestNonce` | pow/deepseek_pow.go:70-115 | one turn of the search accepts n exactly when the naive hash of prefix and decimal n is the target |
| `Pow.MidstateReuse` | pow/deepseek_pow.go:46-59 | continuing the sponge from the absorbed prefix gives the final state of the whole message |
| `Pow.WordsDecide` | pow/deepseek_pow.go:113-115 | the four word comparisons hold exactly when the naive test does |
| `Pow.DigestMatches` | pow/deepseek_pow.go:39-44 | comparing four state words with the words of the target compares the 32-byte digests |
| `Pow.Search` | pow/deepseek_pow.go:62-117 | the loop returns the least nonce that passes, or that none does, or the first failed poll of the context |
| `Pow.SolvePow` | pow/deepseek_pow.go:31-118 | for every challenge, salt, expiry and difficulty: the two input errors exactly when they apply, else the least nonce in range whose DeepSeekHashV1 is the challenge, or none, or cancelled |
| `Pow.SolvePlanted` | pow/deepseek_pow.go:32-120 | when the challenge spells the hash for some nonce in range and the context stays alive, that nonce is found or a smaller one with the same hash |
| `Pow.PollsAre` | pow/deepseek_pow.go:62-69 | the context is looked at once before every 1024th nonce, nonce 0 included |
| `Pow.NaiveTestHashes` | pow/deepseek_pow.go:29 | the test the search is measured against is DeepSeekHashV1 of prefix and decimal nonce compared with the target |
| `Pow.OutcomeIsUnique` | pow/deepseek_pow.go:29-31 | a challenge and a schedule of cancellations admit one outcome only, so the search has no other right answer |
| `Pow.AliveSearchIsComplete` | pow/deepseek_pow.go:62-117 | with a live context the search fails exactly when no nonce in range solves, and otherwise returns the smallest that does |
| `FoldText.TrailingPrefixLen` | internal/toolcall/marker.go:214-225 | the countdown returns the length of the longest suffix that is a proper prefix of the marker, up to case |
| `FoldText.HoldInSuffix` | internal/toolcall/marker.go:162 | a hold measured on the text after an offset is the hold measured in the whole text from there |
| `FoldText.LowerIsAscii` | internal/toolcall/marker.go:282-292 | folding maps the ASCII capitals to the small letters, one by one, and keeps everything else |
| `FoldText.TrimIs` | internal/toolcall/marker.go:196 | trimming takes off exactly the space on either side |
| `Marker.ContainsMarker` | internal/toolcall/marker.go:270-280 | true exactly when the marker occurs somewhere, up to case |
| `Marker.ReplaceMarkerKeyword` | internal/toolcall/marker.go:248-268 | the result is the left-to-right scan that writes the keyword for every occurrence, and the text itself for an empty marker |
| `Marker.LastOccurrenceEnd` | internal/toolcall/marker.go:232-246 | the offset past the last occurrence met by the same left-to-right scan |
| `Marker.CutIsSafe` | internal/toolcall/marker.go:162-164 | releasing all but the held suffix commits to nothing: whatever follows, the rewritten whole is the rewritten head followed by the rewritten rest |
| `Marker.ChunkingDoesNotMatter` | internal/toolcall/marker.go:144-175 | for every marker, also a self-overlapping one, and every chunking, all writes and the flush together equal the one-shot rewriting of the whole text |
| `Marker.MarkerNormalizer.constructor` | internal/toolcall/marker.go:131-137 | the marker is trimmed and upper-cased; empty and canonical markers make a pass-through |
| `Marker.MarkerNormalizer.Write` | internal/toolcall/marker.go:156-165 | the text released and the text kept are those of the specified step |
| `Marker.MarkerNormalizer.Flush` | internal/toolcall/marker.go:168-175 | the kept text is rewritten and released, and nothing stays |
| `Marker.NormalizeMarkerText` | internal/toolcall/marker.go:179-185 | writing and flushing once equals the one-shot rewriting |
| `Marker.RoundTripIff` | internal/toolcall/marker.go:187-204 | NormalizeMarkerText undoes ApplyToolMarker on every text free of the marker exactly when each border of the upper-cased marker is a beginning of the keyword |
| `Marker.ApplyThenNormalize` | internal/toolcall/marker.go:179-204 | the round trip for such a marker and every such text |
| `Marker.UnborderedIsHarmless` | internal/toolcall/marker.go:89-96 | a marker whose border length is zero meets that condition |
| `Marker.NoMatchAcrossInsertion` | internal/toolcall/marker.go:82-88 | no occurrence can begin in kept text and end inside an inserted marker |
| `Marker.OverlapIsBorder` | internal/toolcall/marker.go:79-88 | an occurrence that overlaps an inserted marker makes the overlap a border of it |
| `Marker.BorderBreaks` | internal/toolcall/marker.go:82-88 | a marker with any other border has a text, free of it, that the round trip changes |
| `Marker.MixedCaseMarkerFails` | internal/toolcall/marker.go:89-96 | a border length of zero on the marker as written is not enough: a mixed-case marker and a text that do not round-trip |
| `Marker.DeriveToolMarker` | internal/toolcall/marker.go:41-70 | the result has six letters of the alphabet, no border and no keyword, and is the first of eight draws that qualifies when one does |
| `Marker.UpperIsAscii` | internal/toolcall/marker.go:130-136 | upper-casing maps each of the 26 small letters to its capital and keeps every other character |
| `Marker.AttemptLetters` | internal/toolcall/marker.go:98-119 | each letter of a draw is the one of the alphabet without 0, 1, I and O that a byte of the hash selects |
| `Marker.DerivedMarkersRoundTrip` | internal/toolcall/marker.go:36-40 | every marker that can be derived makes the prompt rewriting reversible |
| `MarkerPieces.ApplyRewritesEvery` | internal/toolcall/marker.go:195-204 | every keyword of a prompt becomes the trimmed marker and nothing else changes, for every cutting of a text at its keywords |
| `MarkerPieces.EveryPromptIsCut` | internal/toolcall/marker.go:203 | every text has such a cutting |
| `MarkerPieces.InactiveMarkerKeeps` | internal/toolcall/marker.go:196-202 | a blank marker and the keyword itself leave the prompt alone |
| `MarkerPieces.NormalizeRewritesEvery` | internal/toolcall/marker.go:248-268 | every occurrence of the marker, in any case, becomes the keyword and nothing else changes, for every cutting of a text at its occurrences |
| `MarkerPieces.EveryStreamIsCut` | internal/toolcall/marker.go:248-268 | every text has such a cutting |
| `RepeatGuard.IsHTMLClosingTag` | internal/sse/repeat_guard.go:207-218 | the name up to the first separator decides, and an empty name is never HTML |
| `RepeatGuard.ScanProtocolClosingTag` | internal/sse/repeat_guard.go:160-199 | the loop returns the specified status and resume position |
| `RepeatGuard.ScanBodyMeaning` | internal/sse/repeat_guard.go:176-198 | the body loop depends only on the first angle bracket: its kind and whether it lies within 512 |
| `RepeatGuard.ScanAgainstText` | internal/sse/repeat_guard.go:142-199 | a definite answer read from a buffer is right for every continuation: a tag is denied only if it is none, or if it has 513 bytes and the buffer ends just before its last |
| `RepeatGuard.FeedIsExact` | internal/sse/repeat_guard.go:102-130 | what a feed reports or leaves to be reported is exactly what the text holds, cut where the fragments end |
| `RepeatGuard.ReachesIsChain` | internal/sse/repeat_guard.go:83-132 | reading tag by tag reaches the limit exactly when that many tags follow one another separated only by whitespace |
| `RepeatGuard.RepeatLoopGuard.Feed` | internal/sse/repeat_guard.go:89-132 | the guard moves as the specified step and reports whether it has tripped, now or earlier |
| `RepeatGuard.VerdictIsExact` | internal/sse/repeat_guard.go:54-61 | for every split: the guard trips exactly when the text has a loop of tags up to 512 bytes and of those of 513 that no fragment ends just before the last byte of |
| `RepeatGuard.FewerCutsMoreLoops` | internal/sse/repeat_guard.go:102-130 | only cuts just before a closing bracket matter, and fewer of them leave more loops |
| `RepeatGuard.VerdictBounds` | internal/sse/repeat_guard.go:54-61 | for every split: a loop of tags up to 512 bytes always trips, and only loops of tags up to 513 bytes ever do |
| `RepeatGuard.WholeTextVerdict` | internal/sse/repeat_guard.go:83-132 | fed whole, the guard trips exactly when the text has a loop of tags up to 513 bytes |
| `RepeatGuard.SinglesVerdict` | internal/sse/repeat_guard.go:83-132 | fed byte by byte, it trips exactly when the text has a loop of tags up to 512 bytes |
| `RepeatGuard.FragmentationIrrelevantIff` | internal/sse/repeat_guard.go:54-58 | the verdict is the same for all splits exactly when the loops of the text do not depend on tags of 513 bytes |
| `RepeatGuard.NoLongTagNoDifference` | internal/sse/repeat_guard.go:49-52 | in particular when no tag ends exactly 512 bytes after it starts |
| `RepeatGuard.LongTagsDependOnSplit` | internal/sse/repeat_guard.go:195-198 | an input for which it differs: as many tags of 513 bytes as the threshold trip the guard fed whole and not fed byte by byte |
| `RepeatRuns.TextIsTag` | internal/sse/repeat_guard.go:160-223 | "</", a name without space or brackets, a rest that is empty or begins with space, and ">" is a tag to the guard exactly when the name is not HTML and the whole at most 513 bytes long, the last byte not cut off at that length |
| `RepeatRuns.TagIsText` | internal/sse/repeat_guard.go:160-223 | and every tag is such a text |
| `RepeatRuns.WholeTextTripsIff` | internal/sse/repeat_guard.go:89-150 | fed whole, the guard trips exactly on a text in which threshold such tags follow one another with only space, tabs and line ends between them |
| `RepeatRuns.SinglesTripIff` | internal/sse/repeat_guard.go:89-150 | fed byte by byte, exactly on such tags of at most 512 bytes |
| `RepeatRuns.SplitTripsBetween` | internal/sse/repeat_guard.go:89-150 | every split trips on the latter and only on the former |
| `RepeatRuns.RepeatedTagTrips` | internal/sse/repeat_guard.go:89-150 | one tag repeated as often as the threshold trips the guard for every split and any space between the tags |
| `RepeatRuns.InterruptedRunDoesNotTrip` | internal/sse/repeat_guard.go:117-145 | fewer tags than the threshold on either side of any other character never do |
| `RepeatRuns.HtmlRunDoesNotTrip` | internal/sse/repeat_guard.go:207-223 | closing tags of HTML elements never do, however many and with whatever attributes |
| `ToolRoleGuard.IndexToolRoleMarker` | internal/sse/tool_role_marker_guard.go:80-90 | the offset of the first occurrence up to case, or -1 exactly when there is none |
| `ToolRoleGuard.TrimToolRoleMarker` | internal/sse/tool_role_marker_guard.go:70-76 | keeps exactly the text before the first marker, and reports whether there is one |
| `ToolRoleGuard.ToolRoleMarkerGuard.Feed` | internal/sse/tool_role_marker_guard.go:52-65 | the text released and the guard left are those of the specified step |
| `ToolRoleGuard.HeldSearchIsWhole` | internal/sse/tool_role_marker_guard.go:56-64 | searching the held suffix and the new fragment finds what searching the whole text would |
| `ToolRoleGuard.RoleFeedReadsOn` | internal/sse/tool_role_marker_guard.go:52-65 | a feed after any text leaves the guard of the longer text, and what it adds completes what may be forwarded of it |
| `ToolRoleGuard.RoleGuardIgnoresSplits` | internal/sse/tool_role_marker_guard.go:21-35 | for every split the forwarded text is the text before the marker, or all but the longest suffix that may become one, and the guard trips exactly when the marker occurs |
| `ContentPolicy.ContentPolicy.Feed` | internal/sse/content_policy.go:57-73 | the fragment released and the policy left are those of the specified step |
| `ContentPolicy.PolicyIsPipeline` | internal/sse/content_policy.go:41-47 | the cut is what the two guards would report one after the other over the whole stream, and without a repetition cut everything the role guard releases is forwarded |
| `ContentPolicy.LoopInPrefix` | internal/sse/content_policy.go:61-65 | a suffix that closes no tag can be dropped without changing whether the text loops |
| `ContentPolicy.PolicyVerdict` | internal/sse/content_policy.go:57-82 | for every split: the cut is the repetition exactly when the text before the first marker loops, cut where the released pieces end, else the marker exactly when it occurs; and what is forwarded |
| `ContentPolicy.EndsBeforeCloseAreFree` | internal/sse/content_policy.go:61-65 | no split releases a piece that ends just before a closing bracket while the role guard holds something back there |
| `ContentPolicy.FreeCutsAreEnds` | internal/sse/content_policy.go:61-65 | fed byte by byte, a piece ends wherever the role guard holds nothing back |
| `ContentPolicy.CutIgnoresSplitsIff` | internal/sse/content_policy.go:57-82 | all splits of a text get the same cut exactly when a loop before the marker is one also without the 513-byte tags before whose last byte the role guard holds nothing back |
| `ContentPolicy.CutIgnoresSplits` | internal/sse/content_policy.go:57-82 | in particular when no tag before the marker ends exactly 512 bytes after it starts |
| `ContentPolicy.TenLongTagsDependOnSplit` | internal/sse/content_policy.go:57-82 | an input for which the cut differs, with the real threshold and element names |
| `PolicyRuns.MarkerIsCut` | internal/sse/content_policy.go:57-75 | a text with the role marker in any case: for every split the reply is all before its first occurrence, unless that is cut as a repetition |
| `PolicyRuns.NoMarkerNoCut` | internal/sse/content_policy.go:57-75 | a text without it: for every split nothing is cut but a repetition, and all is forwarded but the longest suffix that begins the marker |
| `PolicyRuns.RepeatedTagIsCut` | internal/sse/content_policy.go:57-75 | a tag that is not HTML, repeated as often as the threshold, is cut for every split |
| `PolicyRuns.TenParameterTagsAreCut` | internal/sse/repeat_guard.go:20-60 | with the real threshold and names: ten closing parameter tags, each on its own line |
| `Pump.LinePump.FlushBuffer` | internal/sse/stream.go:140-200 | one result with thinking first, or nothing when no condition to flush holds |
| `Pump.LinePump.BufferDetection` | internal/sse/stream.go:265-267 | all detection texts are appended, in order |
| `Pump.BufferAddsPart` | internal/sse/stream.go:269-277 | buffering a part adds exactly its characters at the end of what is sent and buffered, provided no text waits when it is thinking |
| `Pump.LinePump.ProcessParts` | internal/sse/stream.go:268-282 | the loop adds the parts in order, flushing text before thinking and after a line break |
| `Pump.LinePump.FlushAtStop` | internal/sse/stream.go:209-224 | the parts of a stop line are buffered and flushed, but not when thinking is all there is |
| `Pump.LinePump.ProcessStop` | internal/sse/stream.go:208-258 | the stop result, an error or filter result unchanged, follows that flush |
| `Pump.LinePump.ProcessContent` | internal/sse/stream.go:264-288 | thinking flushes buffered text first, a line break and sixteen characters flush |
| `Pump.LinePump.ReceiveLine` | internal/sse/stream.go:202-206 | the cursor and the message id of the line take effect before its parts |
| `Pump.LinePump.React` | internal/sse/stream.go:316-357 | a tick flushes whatever is buffered |
| `Pump.LinePump.Drain` | internal/sse/stream.go:343-349 | every queued line is still processed when the end is seen first |
| `Pump.LinePump.Run` | internal/sse/stream.go:316-363 | the run of a list of observations and an ending, with the final flush |
| `Pump.FlushKeepsTotals` | internal/sse/stream.go:140-200 | a flush moves content from the buffers to the output and loses, doubles and reorders none; a forced one empties the buffers |
| `Pump.AddPartsTotals` | internal/sse/stream.go:268-282 | sent and buffered content grow by exactly the parts, in order |
| `Pump.NothingLost` | internal/sse/stream.go:316-363 | for every order of lines, ticks and endings the characters sent before the channel closes are the characters received, with their kinds and in order, and likewise the detection text |
| `Pump.CoalesceIsCoalesced` | internal/sse/stream.go:161-169 | coalescing joins adjacent parts of a kind, drops empty ones and keeps every character |
| `Pump.CoalescedIsUnique` | internal/sse/stream.go:161-169 | a coalesced list is determined by its characters and kinds |
| `Pump.PumpPreservesParts` | internal/sse/stream.go:316-363 | so the parts sent are the parts received once adjacent parts of one kind are joined |
| `Pump.StopIsLastIff` | internal/sse/stream.go:208-257 | the stop result comes after everything received before it exactly when thinking is not the only thing buffered |
| `Pump.LineExposesIff` | internal/sse/stream.go:264-293 | a line leaves thinking alone in the buffers exactly when it ends in thinking that comes after text, its own or buffered before |
| `Pump.StopAfterIff` | internal/sse/stream.go:208-257 | after any run a stop result comes after everything received exactly when thinking is not alone in the buffers |
| `PumpRuns.EndsAreReported` | internal/sse/stream.go:208-258 | for every order of lines, ticks and endings the ends of stream sent are those received, in order, with their errors and filter flags |
| `PumpRuns.StopIsPassedOn` | internal/sse/stream.go:235-257 | after any run a stop line with an error or filtered content is passed on as it is, any other one as a plain end with the cursor of the line |
| `PumpRuns.TroubleIsPassedOn` | internal/sse/line.go:30-62 | over the parser: the error of a chunk, and a filtered one, are the last thing sent |
| `PumpRuns.ParserGivesTroubleNoID` | internal/sse/line.go:30-62 | a line that reports an error or a filter carries no message id |
| `PumpRuns.MessageIDIsReported` | internal/sse/stream.go:204-206 | after any run that ends in a plain end of stream the last message id sent is the last one received, and no more results carry one than lines did |
| `PumpRuns.LittleWaits` | internal/sse/stream.go:130-160 | after any run fewer than sixteen characters of text wait and none of them is a line break, and after a tick nothing waits |
| `PumpRuns.ShortTextWaits` | internal/sse/stream.go:264-288 | a line of text without a line break is not sent by itself as long as fewer than sixteen characters wait |
| `Parser.Walker.AppendFragments` | internal/sse/parser.go:357-389 | each typed fragment moves the cursor and adds its content, in order |
| `Parser.Walker.UpdateTypeFromNestedResponse` | internal/sse/parser.go:231-267 | the nested fragment lists move the cursor and add nothing |
| `Parser.Walker.AppendInner` | internal/sse/parser.go:577-627 | an element of a nested list is typed by itself, by its batch or by the cursor |
| `Parser.Walker.ExtractItem` | internal/sse/parser.go:503-629 | one item of a batch, which ends the response only through an unscoped finished status |
| `Parser.Walker.ExtractContent` | internal/sse/parser.go:501-631 | a batch adds its items in order up to the one that ends the response |
| `Parser.GatheredKeeps` | internal/sse/parser.go:101-116 | no walker, on a value of any shape and depth, takes a started body back to thinking or invents a kind |
| `Parser.BodyIsSticky` | internal/sse/parser.go:103-137 | once the body has begun a chunk of any shape leaves the cursor there and shows no thinking |
| `Parser.DisabledShowsNoThinking` | internal/sse/parser.go:144-147 | with thinking disabled no chunk of any shape shows thinking |
| `ParserKinds.ContentIsText` | internal/sse/parser.go:269-279 | the text at response/content is shown as text and starts the body, for every cursor and setting |
| `ParserKinds.ThinkingIsThinking` | internal/sse/parser.go:158-170 | the text at response/thinking_content is shown as thinking before the body when enabled, not shown otherwise, and always detected |
| `ParserKinds.NoPathFollowsCursor` | internal/sse/parser.go:269-292 | text without a path has the kind of the cursor |
| `ParserKinds.TextAtPath` | internal/sse/parser.go:269-292 | a text at any path: thinking at its own path only, of the cursor inside a fragment and without a path, text everywhere else, and how the path moves the cursor |
| `ParserKinds.ObjectIsItsText` | internal/sse/parser.go:333-346 | an object with a text, or else a content, stands for it at the content paths and without a path |
| `ParserKinds.OtherObjectIsSilent` | internal/sse/parser.go:325-335 | at any other path an object that wraps no fragments shows nothing and moves no cursor |
| `ParserKinds.SplitAtClose` | internal/sse/parser.go:420-461 | thinking before the first closing tag stays, the tag goes, and everything after it is text |
| `ParserKinds.ClosingTagStartsBody` | internal/sse/parser.go:131-144 | so does a chunk of any shape before the body: a closing tag in its thinking starts the body there |
| `ParserKinds.FinishedEnds` | internal/sse/parser.go:93-101 | a finished status and the bare word end the response |
| `ParserKinds.ChunkShows` | internal/sse/parser.go:121-145 | a chunk of any shape that does not finish shows every text part it carries, in order, its thinking exactly before the body when enabled, and all thinking to detection |
| `ParserKinds.AppendedFragments` | internal/sse/parser.go:185-229 | fragments appended: RESPONSE is text, THINK, THINKING and TOOL_x are thinking, and which of them move the cursor where |
| `ParserKinds.UntypedFragment` | internal/sse/parser.go:222-226 | a fragment without a type is text when appended, of the kind of the cursor when wrapped, and moves no cursor |
| `ParserKinds.WrappedFragments` | internal/sse/parser.go:348-390 | the same for fragments wrapped in a response object |
| `ParserKinds.NestedFragments` | internal/sse/parser.go:231-267 | the same for fragments nested in a batch, which are walked over twice |
| `ParserKinds.BatchItems` | internal/sse/parser.go:501-600 | items of a batch: content is text, thinking_content is thinking, a finished status ends it |
| `ParserKinds.FragmentItems` | internal/sse/parser.go:501-600 | items of a batch of one fragment: its content is thinking, and its finished status does not end the response |
| `ParserKinds.FinishedIff` | internal/sse/parser.go:89-126 | a chunk of any shape ends the response exactly when its status says so, its bare text is FINISHED, or an item of its batch says so and the batch is not that of one fragment |
| `ParserKinds.ScopedIff` | internal/sse/parser.go:474-490 | a batch is that of one fragment exactly when its trimmed path is fragments/ and a non-empty part without a slash, with or without response/ before it |
| `Parser.ChunkIsSound` | internal/sse/parser.go:84-148 | the cursor and every part have one of the two kinds, and a chunk that ends the response carries no content |
| `Parser.ThinkingNeverReturns` | internal/sse/parser.go:103-137 | in every run, after a chunk that leaves the cursor in the body no later chunk leaves it or shows thinking |
| `Parser.ParserIsWellBehaved` | internal/sse/line.go:22-75 | every line result meets what the pump relies on |
| `Parser.PumpOverParser` | internal/sse/stream.go:331-334 | so the pump over this parser preserves the parts of every stream, with no assumption on the lines |
| `Parser.LineIsCovered` | internal/sse/parser.go:121-145 | what the result of a line shows as thinking also appears in its detection text |
| `Parser.StopOvertakesIff` | internal/sse/stream.go:208-257 | for the pump over this parser, after any run, a line with content and the end: the end is reported last exactly when the line does not end in thinking that comes after text |
| `Parser.StopOvertakesThought` | internal/sse/stream.go:264-283 | a stream the program can receive, an answer and a thinking fragment in one chunk and the end, whose end is reported before the thinking |
| `Parser.NoThinkingAfterBody` | internal/sse/parser.go:103-137 | with thinking enabled everything the pump sends of what was received after the body began is text, whatever the lines and the timing |
| `Pool.AccountPool.CurrentInUse` | internal/account/pool_limits.go:81-87 | the sum over the counts, in whatever order the map is walked |
| `Pool.TotalUpdate` | internal/account/pool_limits.go:81-87 | changing one count changes the sum by the difference |
| `Pool.AccountPool.CanAcquireID` | internal/account/pool_limits.go:62-79 | true exactly when no limiter and neither in-flight limit stands against the account |
| `Pool.AccountPool.BumpQueue` | internal/account/pool_acquire.go:103-112 | the account moves to the back |
| `Pool.BumpIsRotation` | internal/account/pool_acquire.go:103-112 | the queue keeps its accounts and the order of all others, and ends in the bumped one |
| `Pool.AccountPool.TryAcquire` | internal/account/pool_acquire.go:79-101 | the first eligible account in queue order is taken, none exactly when there is none, and then nothing changes |
| `Pool.AccountPool.Acquire` | internal/account/pool_acquire.go:55-77 | a target is taken only itself, otherwise the queue decides |
| `Pool.AccountPool.Release` | internal/account/pool_core.go:121-138 | one slot of the account is returned and one waiter woken, or nothing happens when none is taken |
| `Pool.AccountPool.ResetTo` | internal/account/pool_core.go:52-119 | the queue is rebuilt with token holders first, waiters are all woken, and only counts of queued accounts survive |
| `Pool.AccountPool.ApplyRuntimeLimits` | internal/account/pool_limits.go:9-29 | the limits with their defaults, and one waiter woken |
| `Pool.AccountPool.NotifyWaiter` | internal/account/pool_waiters.go:59-66 | the first waiter leaves the list and its channel is closed, once |
| `Pool.AccountPool.DrainWaiters` | internal/account/pool_waiters.go:79-84 | every listed channel is closed, each once |
| `Pool.AccountPool.CanQueueNow` | internal/account/pool_waiters.go:14-57 | true exactly when the list has room and some candidate is worth waiting for |
| `Pool.AccountPool.Enqueue` | internal/account/pool_acquire.go:40-42 | a channel never used before joins the end of the list |
| `Pool.AccountPool.RemoveWaiter` | internal/account/pool_waiters.go:68-77 | the waiter leaves the list if it is there, and no other does |
| `Pool.CancelledIsSound` | internal/account/pool_waiters.go:68-77 | removing a waiter keeps the list distinct and open, and removes exactly it |
| `Pool.GrantStaysWithinLimits` | internal/account/pool_limits.go:62-79 | a grant is never excluded or unfit, and neither the per-account nor the global limit is exceeded after it |
| `Pool.ReleaseStaysWithinLimits` | internal/account/pool_core.go:121-138 | a release never exceeds a limit |
| `Pool.RefusalIsJustified` | internal/account/pool_acquire.go:79-101 | an untargeted request is refused exactly when no queued account is eligible |
| `PoolRules.GrantIsFirstFree` | internal/account/pool_acquire.go:55-101 | a targeted request gets its account exactly when nothing stands against it, another one the first such account of the queue |
| `PoolRules.GrantTakesOne` | internal/account/pool_acquire.go:64-77 | a grant takes one slot of that account, moves no other count, and sends the account to the back of the queue |
| `PoolRules.ReleaseReturnsOne` | internal/account/pool_core.go:121-139 | a release returns one slot, moves no other count and wakes the first waiter |
| `PoolRules.EmptyReleaseKeeps` | internal/account/pool_core.go:121-139 | a release of an account that nobody holds, or of none, changes nothing |
| `PoolRules.EveryoneGetsATurn` | internal/account/pool_acquire.go:79-112 | in every run, between two times an account is served from the queue every other queued account that is free the second time has been served |
| `PoolRules.ResetRebuilds` | internal/account/pool_core.go:52-119 | a reset queues exactly the accounts on duty, those with a token first, keeps exactly their counts and wakes everyone |
| `PoolRules.LimitsAre` | internal/account/pool_limits.go:9-29 | the limits with their defaults, the derived global limit and the recommended concurrency; nothing else changes but the first waiter |
| `PoolRules.DerivedLimitNeverBinds` | internal/account/pool_limits.go:18-23 | the global limit derived from the queue never refuses an account that is below its own limit |
| `PoolRules.SchedulableKeepsOrder` | internal/account/pool_core.go:52-66 | in the order of the configuration |
| `PoolRules.QueueStaysBounded` | internal/account/pool_waiters.go:14-24 | the list of waiters never exceeds its size |
| `PoolRules.MayWaitIff` | internal/account/pool_waiters.go:14-57 | a request may wait exactly while the list has room and some account it may have is worth waiting for |
| `Slots.ActInStep` | internal/auth/request.go:404-467 | every action of a request moves its ledger and the pool together: at most one slot taken or returned, on its own account |
| `Slots.CountsMoveTogether` | internal/auth/request.go:455-467 | each count and the number of holders move by the same amount, or the count was already zero |
| `Slots.ResetIsExactIff` | internal/account/pool_core.go:95-105 | a reset leaves the counts equal to the holders exactly when it keeps every held account queued |
| `Slots.StepKeepsSound` | internal/auth/request.go:142-194 | every step of every request, reset or limit change keeps all ledgers tidy and all counts at most the holders |
| `Slots.LedgerIsExact` | internal/auth/request.go:444-454 | in every run a request holds exactly one slot on its account unless that account was given back, and none once it has ended |
| `Slots.CountsAreHolders` | internal/account/pool_core.go:95-105 | in every run no count exceeds the holders, and with resets that keep held accounts queued they are equal |
| `Slots.NothingLeaks` | internal/auth/request.go:476-484 | when every request has ended nothing is in use, whatever the resets did |
| `Slots.AdmissionIsBounded` | internal/account/pool_limits.go:62-79 | with such resets an account is granted only while fewer requests hold it than it may serve |
| `Slots.HoldersStayWithinLimits` | internal/account/pool_limits.go:62-87 | in every run whose resets keep held accounts and whose new limits fit what is in use, no account has more holders than its limit and no more requests hold a slot than the global limit |
| `Slots.RunKeepsWaits` | internal/account/pool_acquire.go:36-51 | in every run no waiter channel is closed twice, and a waiting request has its own channel, listed or closed |
| `Slots.DroppedAccountIsOversold` | internal/account/pool_core.go:95-105 | a concrete run: two resets let two requests hold an account that serves one at a time |
| `SlotRuns.AskingIs` | internal/account/pool_acquire.go:22-52 | a request for any account is served exactly while a queued account is free, waits while the list has room and some account may become free for it, and else is turned away |
| `SlotRuns.LoginIs` | internal/auth/request.go:175-191 | a failed first login returns the slot and asks again unless the account was named or the failure is fatal; a failed replacement returns the slot and the search goes on |
| `SlotRuns.SwitchIs` | internal/auth/request.go:404-417 | a switch returns the slot, at most once, and searches; a request that named its account keeps it |
| `SlotRuns.NoAccountTwice` | internal/auth/request.go:142-194 | in every run no request is given an account twice, and one that names its account is given no other |
| `SlotRuns.ServedHasLoggedIn` | internal/auth/request.go:404-467 | in every run an active request that has not returned its account holds its slot, and that account has logged in for it |
| `SlotRuns.RefusedIffAllTried` | internal/auth/request.go:148-154 | in every run without resets the count of tried accounts ends a request exactly when it asks for any account and has tried every queued one |
| `SlotRuns.FreshIsInitial` | internal/account/pool_core.go:31-50 | runs may begin with any queue and any limits |
| `Retry.RequestAuth.constructor` | internal/auth/request.go:166-176 | a fresh request may consume at most N - 1 further accounts and N refreshes |
| `Retry.RequestAuth.SwitchAccount` | internal/auth/request.go:404-442 | a switch uses up an account never tried before, and a failed one costs nothing |
| `Retry.RequestAuth.FindReplacement` | internal/auth/request.go:421-441 | the search for a replacement ends, each failed login using up an untried account |
| `Retry.RequestAuth.RefreshTokenOnce` | internal/auth/auth_failure.go:64-80 | at most one forced login for each account and request |
| `Retry.RequestAuth.RecoverAuthFailure` | internal/auth/auth_recovery.go:41-57 | refresh first, then switch, and every recovery consumes something; when logins succeed, exactly which of the two it is |
| `Retry.RequestAuth.CanRetryOnAlternateAccount` | internal/completionruntime/nonstream.go:375-401 | a retry is granted only against a consumed account or refresh, and a 429 only once, which is what the flag tells; when logins succeed, exactly which errors are retried |
| `Retry.RequestAuth.RecoverIn` | internal/deepseek/client/client_auth_failure.go:29-57 | a client call recovers by a switch, or by the shared refresh-then-switch, and every recovery consumes something |
| `Retry.RequestAuth.CallUpstream` | internal/deepseek/client/client_auth_failure.go:29-57 | a client call recovers while it is told to and anything is left, and no longer |
| `Retry.RequestAuth.StartCompletion` | internal/completionruntime/nonstream.go:70-90 | the start loop ends, each further start paid for by what it consumed; when one start for each part of the budget is rejected it uses the whole budget; the error returned is that of the last start, and the flag tells exactly whether a 429 was retried, at most once |
| `Retry.RequestAuth.ExecuteNonStreamStarted` | internal/completionruntime/nonstream.go:230-348 | the loop ends, with at most the remaining budget and the empty-output retries in passes; it ends with an answer, an empty one only after all empty-output retries, or with an error that is not one to retry, or a failed start; at most one 429 is retried |
| `Retry.RequestAuth.ExecuteStream` | internal/completionruntime/stream_retry.go:61-309 | the same for the streaming loop with its resumes and switches, which also ends when a resume fails |
| `Retry.RequestAuth.Serve` | internal/completionruntime/nonstream.go:208-215 | a start and one of the loops, of which only the streaming one is ever interrupted: every error passed on is one that is not to be retried while accounts are free and log in |
| `Retry.ServeRequest` | internal/completionruntime/nonstream.go:208-215 | a whole request makes at most 2N + retryMax passes over N accounts, at most 1 + retryMax with its own token, and exactly as many when the first 2N - 1 starts (none with its own token) are rejected as unauthorized and all else goes on |
| `Retry.ServeHardRequest` | internal/completionruntime/nonstream.go:75-90 | so the bound is attained over any accounts and with either loop: refresh and switch in turn, then every empty-output retry |
| `ApplyLock.StepKeepsInv` | internal/mihomo/manager.go:248-270 | every statement of every call keeps the invariant of the mutex, the flag and the channels |
| `ApplyLock.OneApplies` | internal/mihomo/manager.go:237-240 | in every interleaving at most one call is inside doApply |
| `ApplyLock.ClosedAtMostOnce` | internal/mihomo/manager.go:265-270 | a channel about to be closed is still open and nobody else is about to close it |
| `ApplyLock.NoWakeupIsLost` | internal/mihomo/manager.go:249-258 | the channel a call waits for is closed, is the owner's, or is held by a call about to close it, and is never nil |
| `ApplyLock.SomeCallMoves` | internal/mihomo/manager.go:248-270 | while a call has not returned some call can take a step |
| `ApplyLock.StepMakesProgress` | internal/mihomo/manager.go:248-270 | a step closes a channel or brings its call nearer to the end, the others staying where they are |
| `ApplyLock.EveryApplyReturns` | internal/mihomo/manager.go:237-240 | from every reachable state and under every schedule, without further calls, all calls return |
| `ApplyRuns.ReturnedHasApplied` | internal/mihomo/manager.go:232-234 | in every interleaving a call that is done waiting has applied the configuration itself after it was made, unless it was cancelled while it waited |
| `ChatHistory.Store.Open` | internal/chathistory/store.go:146-164 | loading fails exactly when a detail file the index names is missing, and then touches nothing; else the store is consistent and holds the newest named entries, the stored limit and revision; other files may lie about |
| `ChatHistory.Store.MarkDetailDirty` | internal/chathistory/store.go:731-744 | the trimmed id becomes dirty and is no longer deleted, a blank one changes nothing |
| `ChatHistory.Store.MarkDetailDeleted` | internal/chathistory/store.go:746-759 | the trimmed id becomes deleted and is no longer dirty, a blank one changes nothing |
| `ChatHistory.Store.SortSummaries` | internal/chathistory/store.go:551-563 | one summary for each entry, newest first |
| `ChatHistory.InsertKeepsSorted` | internal/chathistory/store.go:555-563 | a summary inserted by creation, revision and update time keeps the order |
| `ChatHistory.Store.RebuildIndex` | internal/chathistory/store.go:550-585 | the index is the sorted list of what stays, within the limit; what does not stay is marked deleted |
| `ChatHistory.KeptAreNewest` | internal/chathistory/store.go:571-583 | cutting the sorted list leaves no entry out that is newer than one kept |
| `ChatHistory.Store.SaveLocked` | internal/chathistory/store.go:505-548 | a save is a rebuild and then all removals, all writes and the index, or a part of them when a disk operation fails |
| `ChatHistory.Store.FlushDetails` | internal/chathistory/store.go:512-537 | which partial results a failing flush may leave: no write before the last removal |
| `ChatHistory.Store.RebuildAndSave` | internal/chathistory/store.go:290-294 | from a store ready to be saved the end is consistent, and the directory equals memory when the save succeeds |
| `ChatHistory.Store.Start` | internal/chathistory/store.go:257-295 | the entry recorded, trimmed and under a new revision; a store that failed to load or a disabled history refuses and changes nothing; consistent even when the save fails |
| `ChatHistory.Store.Update` | internal/chathistory/store.go:297-343 | which fields an update replaces and which it keeps; unknown ids change nothing; consistent even when the save fails |
| `ChatHistory.Store.Delete` | internal/chathistory/store.go:345-369 | exactly the entry is gone, from memory and after a successful save from disk; consistent even when the save fails |
| `ChatHistory.Store.Clear` | internal/chathistory/store.go:371-390 | no entry is left; consistent even when the save fails |
| `ChatHistory.Store.SetLimit` | internal/chathistory/store.go:392-411 | the limit is the new one, an unsupported one changes nothing; consistent even when the save fails |
| `ChatHistory.WritingKeepsConsistent` | internal/chathistory/store.go:512-547 | whatever part of a write fails, ids outside dirty and deleted are on disk as in memory and the two sets stay disjoint |
| `ChatHistory.SaveKeepsConsistent` | internal/chathistory/store.go:505-548 | a save keeps the store consistent; a failed one leaves the old index; a successful one makes the directory equal memory |
| `ChatHistory.RunKeepsConsistent` | internal/chathistory/store.go:257-411 | through every sequence of operations and partly failing saves every state is consistent and the revision does not go back |
| `ChatHistory.MutationKeepsConsistent` | internal/chathistory/store.go:257-411 | every change draws a new, greater revision below the end of the range |
| `ChatHistory.SavedTwice` | internal/chathistory/store.go:290-294 | rebuilding before a save that rebuilds again changes nothing |
| `ChatHistory.SavedReopens` | internal/chathistory/store.go:413-471 | what a successful save leaves opens again with the same entries, limit and revision |
| `ChatHistory.NewestSurvives` | internal/chathistory/store.go:571-583 | the newest entry survives every rebuild, and an entry older than all others does not survive a full history |
| `ChatHistory.RevisionIncreasesIff` | internal/chathistory/store.go:587-594 | the next revision is greater than the last one except at the end of the 64-bit range |
| `HistoryRules.UpdatesAccumulate` | internal/chathistory/store.go:318-338 | over every sequence of updates an entry ends with the last content, reasoning, status, usage and completion it was given: none is ever erased |
| `HistoryRules.LastUpdateCounts` | internal/chathistory/store.go:315-338 | and with the clocks, error and outcome of the last update |
| `HistoryRules.StartIsEmpty` | internal/chathistory/store.go:257-295 | a new entry streams, has no content yet and carries the request with its texts trimmed |
| `HistoryRules.IndexIsNewestFirst` | internal/chathistory/store.go:550-570 | the index lists later creations first, among equals later revisions, then later updates |
| `HistoryRules.LimitsAre` | internal/chathistory/store.go:23-33 | the supported limits are 0, 10, 20 and 50, and any other becomes 20 |
| `HistoryRules.RemovalsComeFirst` | internal/chathistory/store.go:515-545 | while a file to be removed is still there nothing has been written, however the save failed |
| `HistoryRules.MigratedIs` | internal/chathistory/store.go:488-494 | a legacy entry keeps its revision, or gets its update time, or the time of the migration; nothing else of it changes |
| `HistoryRules.HighestIs` | internal/chathistory/store.go:482-501 | the revision of a migrated store is the highest among its entries with an identifier |
| `HistoryRules.LoadedIs` | internal/chathistory/store.go:483-500 | of the legacy entries with one identifier the last is kept |
| `HistoryRules.LoadedOnly` | internal/chathistory/store.go:483-500 | and none with a blank one |
| `HistoryRules.IndexTellsEntries` | internal/chathistory/store.go:596-616 | every line of the index tells what its entry holds, one for each entry |
| `Reopening.FailedSaveReopensIff` | internal/chathistory/store.go:505-548 | every way a save can fail leaves a directory that opens again exactly when the old index names no file to be removed |
| `Reopening.SurvivesIff` | internal/chathistory/store.go:550-585 | an entry survives every rebuild exactly when fewer others than the limit are not older |
| `Reopening.FailedOperationReopensIff` | internal/chathistory/store.go:505-548 | from any consistent state whose directory opens: however the save of an operation fails, the directory opens again exactly when no entry named by the index on disk is deleted or may be evicted |
| `Reopening.FlushedOperationReopensIff` | internal/chathistory/store.go:257-411 | after a successful save, which operations leave a directory that opens however their save fails, by what a caller can see: the number of entries, the limit and the creation times |
| `Reopening.RunKeepsOpening` | internal/chathistory/store.go:413-471 | over every sequence of operations that save or spare the named entries, the directory opens at any time |
| `Reopening.DeletionBlocksTheStore` | internal/chathistory/store.go:505-548 | a run: an entry started and saved, deleted while the index cannot be written, and a directory that does not open |
| `ChatHistory.Store.LoadLegacy` | internal/chathistory/store.go:473-503 | the migrated entries are the newest of the file by id, indexed, under the highest revision; which of them a successful migration leaves on disk, exactly |
| `ChatHistory.LegacySaved` | internal/chathistory/store.go:473-503 | a kept legacy entry is on disk exactly when its id is clean and no evicted id trims to it, or its file was there before; disk equals memory exactly when that holds of all |
| `ChatHistory.PaddedIsLost` | internal/chathistory/store.go:731-744 | an input that loses an entry: an id with surrounding space is indexed and never written |
| `ChatHistory.TwinIsLost` | internal/chathistory/store.go:571-583 | another: a clean id whose older twin with a space is evicted is kept, indexed and never written |
| `JsonSplit.SplitTopLevelJSONValues` | internal/toolcall/toolcalls_array_parse.go:107-164 | the loop returns the pieces of the specified cut, and fails exactly on a blank piece or fewer than two |
| `JsonSplit.PiecesRejoin` | internal/toolcall/toolcalls_array_parse.go:143-155 | the pieces joined by commas are the text again, for every text |
| `JsonSplit.SplitIsACut` | internal/toolcall/toolcalls_array_parse.go:107-164 | every successful split of any text is its trimmed pieces, at least two and none blank |
| `JsonSplit.ValueIsNeutral` | internal/toolcall/toolcalls_array_parse.go:119-153 | scanning the text of any JSON value leaves depth and string state as they were and cuts nothing |
| `JsonSplit.JoinIsCut` | internal/toolcall/toolcalls_array_parse.go:143-151 | a join of values is cut exactly at its commas |
| `JsonSplit.SplitUndoesJoin` | internal/toolcall/toolcalls_array_parse.go:107-164 | for every two or more JSON values, with any strings, nesting and spacing, the split of their join is exactly their texts |
| `JsonSplit.OneValueIsNotSplit` | internal/toolcall/toolcalls_array_parse.go:160-162 | a single value, with any spacing, is not split |
| `JsonSplit.TokensAre` | internal/toolcall/toolcalls_array_parse.go:119-153 | the values spoken of include every number and the literals true, false and null |
| `Binding.NodeKeyRoundTripIff` | internal/config/mihomo.go:116-131 | splitting a joined node key gives its halves back exactly when the first neither contains "::" nor ends in a colon |
| `Binding.LeastFreeIsLeast` | internal/config/mihomo.go:202-208 | every smaller candidate port is taken |
| `Binding.FirstFree` | internal/config/mihomo.go:202-208 | the search loop ends at the least port from the base on that is not used |
| `Binding.FreshPort` | internal/config/mihomo.go:191-208 | a fresh port is not the API port, clashes with no mapped port, and is at most base + the size of the port map + 1 |
| `Binding.FreshPortIsLeast` | internal/config/mihomo.go:191-208 | every smaller port from the base on is mapped or the API port |
| `Binding.AllocationKeepsInjective` | internal/config/mihomo.go:184-211 | the port map stays injective, keys that have a port keep it, and nothing else changes |
| `Binding.Settings.AllocatePort` | internal/config/mihomo.go:184-211 | the port and the configuration are those of the specified allocation |
| `Binding.Settings.UpsertManagedProxy` | internal/mihomo/binding.go:110-130 | the first proxy with the node's id is updated in place, or one is appended |
| `Binding.Settings.Collect` | internal/mihomo/binding.go:46-90 | the four passes end in the specified collection |
| `Binding.GcKeepsProxies` | internal/mihomo/binding.go:52-68 | a proxy is kept exactly when it is not managed or an account references it |
| `Binding.GcKeepsPorts` | internal/mihomo/binding.go:84-89 | a port is kept exactly when its node is live and its proxy exists and is referenced |
| `Binding.GcKeepsBindings` | internal/mihomo/binding.go:73-83 | an account loses its proxy exactly when that is managed and does not exist |
| `Binding.GcCollects` | internal/mihomo/binding.go:42-90 | afterwards every mapped key has a live node, a managed proxy and an account, and every managed binding has its proxy |
| `Binding.CollectedIsFixed` | internal/mihomo/binding.go:46-90 | a configuration with these properties is left as it is |
| `Binding.GcIsIdempotent` | internal/mihomo/binding.go:46-90 | collecting twice is collecting once |
| `Binding.Settings.BindAccount` | internal/mihomo/binding.go:137-181 | binding and unbinding, with every error, and nothing changed on an error |
| `Binding.BindBinds` | internal/mihomo/binding.go:162-173 | after a successful bind the account is on that node, which is live and has a proxy on its own port |
| `Binding.Settings.AssignInTurn` | internal/mihomo/binding.go:235-255 | the assignment loop and the number of accounts it binds |
| `Binding.AssignAssigns` | internal/mihomo/binding.go:183-188 | after a successful assignment the assignable accounts are on the usable nodes in turn |
| `Binding.Settings.UpdateSettings` | internal/mihomo/binding.go:388-421 | ports and bindings after a change of settings, with every error, and nothing changed on an error |
| `Binding.TransactionKeepsInjective` | internal/mihomo/binding.go:137-421 | bind, assign, delete, refresh, settings and collection keep the port map injective |
| `Binding.PortsStayDistinct` | internal/config/mihomo.go:179-183 | over every sequence of transactions no two node keys share a port |
| `Binding.CommittedIsCollected` | internal/mihomo/binding.go:42-45 | every committed transaction leaves a collected configuration, one that only sets ports if it finds one |
| `Binding.BackedProxiesDiffer` | internal/mihomo/binding.go:109 | while every managed proxy is on its own live node's port, no two nodes' proxies share one |
| `Binding.DeletionKeepsBacked` | internal/mihomo/binding.go:360-377 | deleting a subscription takes the proxies of its nodes with it and leaves the others on their own ports |
| `Binding.RefreshKeepsBackedIff` | internal/mihomo/binding.go:324-333 | a refresh keeps every managed proxy on its own node's port exactly when no node in use is missing from the new list |
| `Binding.ProxiesStayBacked` | internal/mihomo/binding.go:137-385 | over every sequence of transactions with such refreshes that stays so |
| `Binding.StaleBindingSurvives` | internal/mihomo/binding.go:302-303 | a refresh that drops a node takes its port away but leaves the account bound to it |
| `Binding.StalePortIsShared` | internal/mihomo/binding.go:302-341 | another node may then get that port, and two accounts on different nodes use the same listener |
| `Binding.DeletionFreesIff` | internal/mihomo/binding.go:361-376 | deleting a subscription frees an account of its node exactly when the node still has a port or its proxy is gone |
| `BindingRules.BindFailsIff` | internal/mihomo/binding.go:137-181 | binding fails for want of an account, or of a live node, exactly when there is none |
| `BindingRules.LiveIff` | internal/config/mihomo.go:145-165 | a node is live exactly when a subscription of its id lists a node of its name |
| `BindingRules.UnboundIsDirect` | internal/mihomo/binding.go:137-181 | an account bound to no node has a direct connection, and no other account loses anything but a managed proxy |
| `BindingRules.DirectStaysDirect` | internal/mihomo/binding.go:234-260 | over every sequence of transactions that does not bind it again it keeps the direct connection |
| `BindingRules.AssignLeaves` | internal/mihomo/binding.go:192-270 | an assignment leaves alone the accounts that are disabled, nameless, direct or bound by hand |
| `BindingRules.ManualStaysBound` | internal/mihomo/binding.go:188-190 | an account bound by hand to a live node stays on it through every assignment |
| `BindingRules.UsableKeysAre` | internal/mihomo/binding.go:196-216 | the nodes of an assignment are those given, trimmed, but for blanks and failed ones, each once |
| `BindingRules.ManualStaysMeaningful` | internal/mihomo/binding.go:98-104 | over every sequence of transactions an account marked as bound by hand has a managed proxy: whatever takes the node takes the mark |
| `BindingRules.AllocatedIsUsable` | internal/config/mihomo.go:179-211 | a node gets a port of at least 1, the recorded one, and keeps a usable port it had |
| `BindingRules.CommitRefusesIff` | internal/config/mihomo.go:224-229 | a valid configuration is refused exactly when a listener is on the API port and that lies less than the map size and 16 past the base |
| `BindingRules.ConfiguredPortsAre` | internal/mihomo/binding.go:396-410 | the ports after a change of settings, with their defaults; the base stays while ports are in use |
| `BindingRules.TurningOffUnbinds` | internal/mihomo/binding.go:98-110 | turning the bridge off takes every account off its node |
| `BindingRuns.RefreshSharesListener` | internal/mihomo/binding.go:302-341 | such a run from an empty port map: two accounts bound to different nodes end on the same local port |
| `BindingRuns.SharedIsNotBacked` | internal/mihomo/binding.go:302-341 | and the proxy of the vanished node has no mapped port any more |
| `Binding.SettingsClashIff` | internal/mihomo/binding.go:388-421 | settings of a running bridge put the API port on a mapped port exactly when it is mapped and at least base + map size + 16 |
| `Binding.TransactionKeepsApart` | internal/config/mihomo.go:179-183 | none of the other transactions modelled ever maps a port below the base or the API port |
| `Binding.ListenersStayApart` | internal/config/mihomo.go:224-229 | over every sequence of transactions without such settings no listener is on the API port |
| `ApiPortRun.ApiPortClashIsReachable` | internal/config/mihomo.go:224-229 | a run from an empty port map that ends, collected, with an enabled account on a live node whose listener is on the API port |
| `DevicePool.BindingCounts` | internal/config/device_pool.go:250-266 | for each id of the pool, and no other, the number of eligible accounts that hold it |
| `DevicePool.LeastBoundFrom` | internal/config/device_pool.go:275-288 | the least bound id, the earliest on a tie |
| `DevicePool.DeviceConfig.RemoveDeviceID` | internal/config/device_pool.go:123-133 | the first item with the trimmed id is gone, the others keep their order |
| `DevicePool.RemovedIs` | internal/config/device_pool.go:123-133 | exactly the first item of the trimmed id is gone and no item moves; for a blank or unknown id nothing changes |
| `DevicePool.DeviceConfig.Reconcile` | internal/config/device_pool.go:184-211 | in manual mode an account keeps its id exactly when it is eligible and the pool has it, and every Bound is exact |
| `DevicePool.ReconciledIs` | internal/config/device_pool.go:192-209 | after reconciliation an account holds an id of the pool exactly when it is eligible and held it before, and no other id; a second one changes nothing |
| `DevicePool.DeviceConfig.RemoveAndRebind` | internal/config/device_pool.go:216-247 | for distinct trimmed ids: every eligible orphan gets an id while one is left, all other accounts stay, every Bound is exact, and an id given to an orphan ends at most one above any other |
| `DevicePool.GiveKeepsBalanced` | internal/config/device_pool.go:232-244 | giving the least bound id keeps the counts exact and the given ids at most one above the rest |
| `DevicePool.ReboundIsBalanced` | internal/config/device_pool.go:232-244 | so do all the orphans in turn |
| `DevicePool.RebindingIsRight` | internal/config/device_pool.go:213-215 | the same outcome, proved of the rebinding as a function |
| `DevicePool.PaddedIdLeavesHolders` | internal/config/device_pool.go:220-230 | an id given with surrounding space would leave the pool while its holders keep it; the callers pass normalised ids |
| `Elastic.SortedGroup` | internal/account/elastic.go:84-93 | the accounts of the type by priority, and by place in the configuration among equals |
| `Elastic.InsertKeepsOrder` | internal/account/elastic.go:91-93 | inserting behind equals keeps the order stable |
| `Elastic.ApplyElasticState` | internal/account/elastic.go:108-124 | which accounts wake, and that only the flag of that account changes |
| `Elastic.ReconcileGroup` | internal/account/elastic.go:83-99 | every account of the type is decided by its place in the order, every other account is untouched |
| `Elastic.AwakeCount` | internal/account/elastic.go:12-18 | at least the quota or all that fit are awake, at most the quota and the busy ones |
| `Elastic.SettledMeans` | internal/account/elastic.go:101-107 | hard accounts sleep, busy ones stay awake, and the others awake are a prefix of the order |
| `Elastic.SettledQuota` | internal/account/elastic.go:12-18 | when no account of the type is busy, the set of its accounts that are awake has exactly min(count, eligible) members |
| `Elastic.OrderIsUnique` | internal/account/elastic.go:91-93 | the order is determined by the accounts and not by their flags |
| `Elastic.ReconcileForgets` | internal/account/elastic.go:83-99 | the result does not depend on which accounts were awake before |
| `Elastic.ReconcileElasticPool` | internal/account/elastic.go:37-57 | each of the three types is settled with its own quota, whatever the others do, and nothing but flags changes |

## Left out

- `BuildPowHeader`, `SolveAndBuildHeader` and `BuildPrefix` beyond its text: JSON and base64 encoding.
- The 25 local lane variables and the raw array of `keccakF23` are grouped into a state of five rows of five lanes; each
  assignment of the source is one field of that state.
- Case folding and trimming beyond ASCII in `Marker`, `FoldText` and `JsonSplit`: `strings.ToUpper` and
  `strings.TrimSpace` act on Unicode as well. Markers are derived from ASCII letters and digits.
- The keyed hash of `DeriveToolMarker` is a parameter, and so are the trimmed secret and caller it is keyed with.
- In `Retry` upstream answers and logins are a parameter, and which account the pool offers is an arbitrary choice;
  payloads, accumulated text and auth-failure counters do not appear.
- Pump.NothingLost: for a context that is not cancelled, the production configuration, an output channel that is
  always read, and stop lines without content, which `Parser.ParserIsWellBehaved` establishes for the real parser. The
  scan error that the done channel reports is not modelled.
- In `Parser` the JSON decoder, the path tables, the regular expressions of the think tags, the content-filter and hint
  checks and the clean-up of leaked filter text are parameters. One walker stands for the two copies of the fragment
  loop and for the copies inside the batch loop; the two differ only in the kind of an untyped fragment.
- In `Slots` a request is a value, and one action is one section of code between two lock operations. Which waiter is
  woken first matters to no theorem here: that a waiting request is eventually served is not claimed, for a wake-up can
  go to a waiter whose filter rejects the freed account.
- Rate-limit windows and daily counts of the pool are parameters of each attempt.
- The body of `doApply`, the processes it starts and further calls made while the others drain.
- In `ChatHistory` process death between two writes, read errors other than a missing file, a detail file whose
  content names another id than its own name, the reading operations, entries that tie in all three sort keys
  (any order among them), the order of disk operations within the removals and within the writes, and the previews.
- The other parsers of toolcalls_array_parse.go.
- In `Binding` the assignments and reconciliations of internal/mihomo/autoassign.go, which use the same allocation and
  collection, so that no statement about all transactions covers them.
- In `Binding` the transaction `AddSubscription`, `ListNodes`, the switches and the binary path among the settings,
  and the trimming of subscriptions that goes with them; the validator is a parameter but for the API port, and the
  SHA-1 ids of managed proxies are taken to be injective. `AssignAccounts`, `DeleteSubscription` and
  `RefreshSubscription` are functions on the configuration; loops over the accounts are methods only for the
  assignment, the clearing and the collection.
- In `DevicePool` the parsing of device ids, adding an id and binding one at login.
- In `Elastic` `DisableAllAccounts`, and the reconciliation of device ids that follows, which `DevicePool` models.
- HTTP, TLS, logging, YAML, the tool-call parser and sieve, the Node runtime, and the admin and protocol surfaces.
