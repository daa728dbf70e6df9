# Verified models of the Liana wallet's trickier parts

This project models, in Dafny, six parts of the Liana repository whose correctness is not
visible from reading one function at a time, and proves what they promise.

* **Translation catalogs** (`liana-i18n-toolbox`). The hand-written reader and printer of `.lang`
  files, the three-way merge that keeps translations in step with the English source, and the
  tool that rewrites a whole directory. The central result is about the tool: one `sync` of any
  readable directory makes `sync --verify` and the build check pass, and a second `sync` changes
  nothing (`CatalogDirLaws.SyncThenVerify`). It rests on an exact round trip: a catalog
  reads back as printed, sorted, if and only if it is printable (`CatalogRoundTrip.RoundTrip`).
* **The scanner behind `check-ids`** (`liana-i18n-toolbox/src/main.rs`). A lexer for Rust sources over
  strings, raw strings, nested comments and line numbers. Its tokens tile every text, and its
  literals are exactly the quoted tokens, each with the right line. They are the literals Rust has
  if and only if no character literal holds a quote and no word runs into one
  (`RustTokens.LiteralsAreRusts`).
* **The business WebSocket client** (`client.rs`) as a step machine: sending, receiving, timing out,
  disconnecting, logging out. Every handler of the class `Client` is proved equal to a step of the
  machine; about the machine it is proved that nothing a cached object mentions is forgotten in any
  run, that retry counts are bounded per request id, how often one request among many is really
  written before a timeout of it is reported, exactly, and that it is never given up, and that the
  cascade of fetches any message starts always ends, completely.
* **Building a spend** (`liana/src/spend.rs`). Coin selection with its ancestor fees and fallback
  loop, what its failure means and what its ancestor fees are worth to the package, the assembly of the transaction and PSBT, the sanity check, and the status of a spend
  from its signatures. `CreateSpend.CreateSpend` states everything a created spend promises.
* **The hot signer and mnemonic file names** (`liana/src/signer.rs`). Two signers may sign in either
  order; signing twice is signing once; which file names read back.
* **The list of signing devices** (`liana-gui/src/hw.rs`). Aliases shown agree with the alias map.

Code that changes things step by step is modelled by methods with loops, and by the classes
`CatalogDir.Tool`, `WsClient.Client`, `CoinSelector.Selector` and `HardwareWallets.Devices`; each
method is proved equal to a function of its inputs or of the old state, and the laws are proved
about those functions. Text is a sequence of Unicode scalar values. Calls into code that is not
modelled (cryptography, descriptor sizes, the character classes of Unicode, the branch-and-bound search, the
order a hash map is walked in) are parameters of which nothing, or only what is stated, is assumed.

## Where code and comments differ

* `client.rs:815-816` says a request is aborted after three retries. That holds of a request *id*
  (`WsRuns.RetryBounds`); a retry is sent under a fresh id whose count starts at zero while the old
  id stays pending (`WsResends.RetryStartsOver`). So as long as the connection lasts and nothing
  answers it, a request is never given up, in any run: it is queued, or pending under an id not yet
  retried (`WsWaiting.NeverAborted`), and it may be written any number of times
  (`WsResends.ResendsAreUnbounded`). Before a timeout of it is reported it is written at most eight
  times until some id is found too old for the fourth time, and at most fifteen times while the
  checker is still handling that find, whatever becomes of other requests meanwhile
  (`WsProjection.CopiesOfOne`); both bounds are reached (`WsResends.EightCopies`,
  `WsResends.FifteenCopies`). They suppose that the clock stands still while the checker handles
  copies of that request; if it may move, the exact bound is 37 (`WsProjection.CopiesOfOne`,
  `WsMovingClock.ThirtySevenCopies`).
* `spend.rs:481-483` describes the reported amount as what is missing for the smallest change
  output. It is measured against the dust limit, but change is only made above what a change output
  wastes. So it is what is missing whenever that waste is below the dust limit, and otherwise only by
  coincidence (`CoinSelectionLaws.MissingWithChange`; two coins at 50 sat/vb in
  `CoinSelectionLaws.MissingMayBeTooLittle`).
* `spend.rs:667-671` says that without destinations all candidates are spent. They are when all are
  marked `must_select`, whatever the search finds and the order (`CoinSelectionLaws.RequiredAreAllSpent`);
  a candidate that is not may be left out (`Spend.OptionalCoinMayStay`).
* `spend.rs:382-387` adds weight so that the combined feerate of a spend and its ancestors reaches
  the target, and notes that shared ancestors may be counted twice. The target is reached exactly
  when what is added coin by coin, and what the fee leaves beyond that, pays what the union of the
  ancestors lacks (`Ancestors.SelectionReachesRate`). That is so for coins that share no ancestor,
  and for those that do if no shared one pays more than the target
  (`Ancestors.SharedPayNoMoreIsEnough`); two coins over an ancestor that pays double miss it in every
  selection with change and nothing to replace (`Ancestors.SharedAncestorMissesRate`, `Ancestors.SharingSelection`).
* `main.rs:191-192` writes the English source before the locales are read, so that an `add-entry`
  that fails on an unreadable locale leaves its entry behind (`CatalogDirLaws.AddEntryLaw`).
* `main.rs:207-209` lets `add-lang` accept language names that do not read back as written
  (`CatalogDirLaws.NewLocaleReadsBack`, `CatalogDirLaws.AcceptedLanguageMayNotReadBack`).
* `main.rs:261-265` promises the string literals of a Rust source. A quote in a character literal is
  taken for the start of one, so that the scanner loses its way in `main.rs:287`, a source it scans
  itself (`RustTokens.LiteralsAreRusts`, `RustTokens.QuoteByteIsMisread`).
* `hw.rs:207-209` replaces the alias map without touching the list: aliases then agree exactly when
  the two maps say the same of every listed device, until the next device list
  (`HardwareWallets.LoadKeepsAgreementIff`, `HardwareWallets.LoadMayBreakAgreement`).

## Model

| member | source | states |
|---|---|---|
| Catalog.SplitNote | liana-i18n-toolbox/src/lib.rs:283-298 | the scan for a note finds the first `#` outside quotes and escapes, and cuts the line there |
| Catalog.ParseQuoted | liana-i18n-toolbox/src/lib.rs:348-377 | the quote scanner returns the value `Quoted` defines, or its error, on every text |
| Catalog.ParseInlineValues | liana-i18n-toolbox/src/lib.rs:310-322 | the values of an inline entry, one or two, are those of the specification, as are the errors |
| Catalog.ParseBlock | liana-i18n-toolbox/src/lib.rs:208-238 | the loop over a block's value lines stops at the line that ends in `;;` with the specified values, note and next line |
| Catalog.ParseRaw | liana-i18n-toolbox/src/lib.rs:202-243 | inline or block form is chosen and read as specified |
| Catalog.ParseEntry | liana-i18n-toolbox/src/lib.rs:240-275 | the checks of id, duplicates, number of values and notes, with their errors in order |
| Catalog.Parse | liana-i18n-toolbox/src/lib.rs:181-279 | the reading loop equals the recursive specification `Parsed` on every text |
| Catalog.ParsedIsWellFormed | liana-i18n-toolbox/src/lib.rs:181-279 | whatever is read has valid, distinct ids, notes on untranslated entries only, and a trimmed, non-empty, one-line language |
| Catalog.EntriesFromWellFormed | liana-i18n-toolbox/src/lib.rs:194-276 | the entry loop keeps ids valid and distinct and notes in place |
| Catalog.LanguageWellFormed | liana-i18n-toolbox/src/lib.rs:183-189 | a header language that is found is one trimmed line |
| CatalogRender.Render | liana-i18n-toolbox/src/lib.rs:387-410 | the printing loop yields the header and each sorted entry with the blank lines between block entries |
| CatalogRoundTrip.EscapeIsOnePass | liana-i18n-toolbox/src/lib.rs:379-385 | the successive replacements of `escape` never touch each other's output: they amount to escaping each character once |
| CatalogRoundTrip.QuotedRoundTrip | liana-i18n-toolbox/src/lib.rs:348-385 | for every value and every text after it, reading the quoted value returns exactly the value and the rest |
| CatalogRoundTrip.NoteStartAfterQuote | liana-i18n-toolbox/src/lib.rs:283-298 | a quoted value neither hides a note nor invents one: the two scanners agree |
| CatalogRoundTrip.NoteSplitRoundTrip | liana-i18n-toolbox/src/lib.rs:283-308 | a printed line is cut exactly at its printed note |
| CatalogRoundTrip.ReadRendered | liana-i18n-toolbox/src/lib.rs:412-440 | a printed entry, inline or block, reads back as that entry, and reading goes on right after its lines |
| CatalogRoundTrip.RoundTripOfPrintable | liana-i18n-toolbox/src/lib.rs:387-440 | every printable catalog reads back as its language and its sorted entries |
| CatalogRoundTrip.OnlyPrintableRoundTrips | liana-i18n-toolbox/src/lib.rs:181-279 | no other catalog does |
| CatalogRoundTrip.RoundTrip | liana-i18n-toolbox/src/lib.rs:181-410 | printing and reading back is the identity up to sorting if and only if the catalog is printable |
| Sorting.SortLaw | liana-i18n-toolbox/src/lib.rs:387-390 | sorting gives an ordered permutation |
| Sorting.SortIsStable | liana-i18n-toolbox/src/lib.rs:387-390 | elements of one key keep their order |
| Sorting.SortOfSorted | liana-i18n-toolbox/src/lib.rs:387-390 | an ordered sequence is left alone |
| Sorting.SortOfMap | liana-i18n-toolbox/src/lib.rs:387-390 | sorting commutes with changing entries that keep their ids |
| CatalogSync.VerifyLocaleLaw | liana-i18n-toolbox/src/lib.rs:560-575 | the check passes exactly when the locale has the English ids, each with the current English text |
| CatalogSync.SyncIsInStep | liana-i18n-toolbox/src/lib.rs:577-603 | a merged locale passes the check, stays well formed, and every entry of it is bilingual and printable |
| CatalogSync.SyncTwice | liana-i18n-toolbox/src/lib.rs:577-603 | merging again changes nothing, for distinct English ids |
| CatalogSync.SyncOfSorted | liana-i18n-toolbox/src/lib.rs:577-603 | sorting the English only sorts the result, sorting the locale changes nothing |
| CatalogSync.LookupOfSync | liana-i18n-toolbox/src/lib.rs:577-603 | the merged entry of an id depends on the English and the locale entry of that id alone |
| CatalogSync.LastHumanSurvives | liana-i18n-toolbox/src/lib.rs:577-603 | over any sequence of English versions an id that stays keeps the last human translation, live exactly if the English never differed since |
| CatalogSync.DroppedIsGone | liana-i18n-toolbox/src/lib.rs:577-603 | an id dropped from the English leaves the locale |
| CatalogDir.Tool.ReadCatalog | liana-i18n-toolbox/src/lib.rs:176-179 | a missing file and each reading error are reported as such |
| CatalogDir.Tool.SyncCatalogs | liana-i18n-toolbox/src/main.rs:72-114 | files, result and reported files after a run, rewriting or verifying, are those of the specification |
| CatalogDir.Tool.AddEntry | liana-i18n-toolbox/src/main.rs:178-195 | invalid and known ids are refused; otherwise the English is extended and everything synced |
| CatalogDirLaws.EnglishSettles | liana-i18n-toolbox/src/main.rs:75-88 | the rewritten English reads back in canonical form and would not be rewritten again |
| CatalogDirLaws.LocaleReadsBack | liana-i18n-toolbox/src/main.rs:90-108 | a rewritten locale reads back as its merged, sorted entries |
| CatalogDirLaws.LocaleSettles | liana-i18n-toolbox/src/main.rs:90-108 | a rewritten locale is not rewritten again, by the old English or the rewritten one |
| CatalogDirLaws.LocaleIsAccepted | liana-i18n/build.rs:22-28 | the build accepts a rewritten locale against the rewritten English |
| CatalogDirLaws.SyncRunLaw | liana-i18n-toolbox/src/main.rs:72-114 | `sync` succeeds exactly when every catalog reads, and then every file is at its target and no other file changed |
| CatalogDirLaws.SyncedTwice | liana-i18n-toolbox/src/main.rs:72-114 | rewriting a rewritten directory changes nothing |
| CatalogDirLaws.VerifyRunLaw | liana-i18n-toolbox/src/main.rs:72-114 | `sync --verify` never writes, gives a verdict exactly when every catalog reads, and then reports exactly the files `sync` would change |
| CatalogDirLaws.SyncThenVerify | liana-i18n-toolbox/src/main.rs:72-114 | for every readable directory, however listed: after `sync`, `--verify` reports nothing, a further `sync` changes nothing and the build accepts every locale |
| CatalogDirLaws.AddEntryLaw | liana-i18n-toolbox/src/main.rs:178-195 | `add-entry` succeeds exactly for a valid new id over readable catalogs, and then the English has the text and all it had, every locale has the id with that text, and the build accepts everything; refused for its id or the English it writes nothing; stopped by an unreadable locale it has written the English and the locales before it |
| CatalogDirLaws.NewLocaleReadsBack | liana-i18n-toolbox/src/main.rs:197-228 | a locale created by `add-lang` reads back as written if and only if its language is one trimmed line |
| CatalogDirLaws.AcceptedLanguageMayNotReadBack | liana-i18n-toolbox/src/main.rs:207-209 | whatever the English, a locale named " x" is accepted and does not read back as written |
| RustLexer.SkipBlockComment | liana-i18n-toolbox/src/main.rs:317-339 | where the comment loop stops, and that it counts exactly the line feeds it skips |
| RustLexer.BlockCommentLaw | liana-i18n-toolbox/src/main.rs:317-339 | a block comment ends where its nesting depth first returns to zero, or takes the whole text; the depth is positive on the way |
| RustLexer.RawStringHashes | liana-i18n-toolbox/src/main.rs:342-348 | a raw string opens with `r`, some `#` and a quote, and the `#` are counted exactly |
| RustLexer.SkipRawString | liana-i18n-toolbox/src/main.rs:351-366 | where the raw string loop stops, and the line feeds it skips |
| RustLexer.RawEndLaw | liana-i18n-toolbox/src/main.rs:351-366 | a raw string ends with the first quote followed by as many `#` as opened it, or takes the whole text |
| RustLexer.StringEndLaw | liana-i18n-toolbox/src/main.rs:287-303 | a literal ends at its first quote that no backslash escapes |
| RustLexer.SkipToken | liana-i18n-toolbox/src/main.rs:273-309 | comments, raw strings and single characters are skipped whole, and the line stays one plus the line feeds before |
| RustLexer.StringLiterals | liana-i18n-toolbox/src/main.rs:266-313 | the scanner ends on every text and reports exactly the specified literals |
| RustLexer.TokensTile | liana-i18n-toolbox/src/main.rs:266-313 | the tokens cover the text from the start to the end without gap or overlap |
| RustLexer.LiteralsLaw | liana-i18n-toolbox/src/main.rs:266-313 | literals are in bounds, ordered, disjoint, end at their first unescaped quote, and carry the line of their opening quote |
| RustLexer.LiteralsAreQuotedTokens | liana-i18n-toolbox/src/main.rs:266-313 | the literals are those of the quoted tokens and of nothing else |
| RustTokens.LiteralsAreRusts | liana-i18n-toolbox/src/main.rs:261-306 | for a source that does not end in a backslash the scanner finds exactly Rust's string literals, if and only if no character literal holds a quote and no word runs into what looks like a raw string |
| RustTokens.QuoteByteIsMisread | liana-i18n-toolbox/src/main.rs:287 | the quote byte of the scanner's own source: Rust has no string there, and the scanner reports one |
| RustLexer.CheckIds | liana-i18n-toolbox/src/main.rs:118-176 | `check-ids` passes exactly when every macro call names a known id and every id is referenced in some source |
| WsRuns.StepKeepsTable | liana-business/business-installer/src/client.rs:1065-1147 | every step keeps the invariant of the pending table and its history |
| WsRuns.RunKeepsTable | liana-business/business-installer/src/client.rs:815-875 | so does every run |
| WsRuns.RetryBounds | liana-business/business-installer/src/client.rs:842-871 | in every run retries stay within three per id, no `Close` or `Connect` is pending, and an id is timed out once at most, after three retries |
| WsRuns.MismatchChangesNothing | liana-business/business-installer/src/client.rs:1235-1254 | a request stays pending exactly when its reply is of the wrong type, and then only the user is told |
| WsRuns.CheckLaw | liana-business/business-installer/src/client.rs:834-841 | the checker copies exactly the entries older than the limit, one copy each |
| WsProjection.CopiesOfOne | liana-business/business-installer/src/client.rs:815-875 | whatever else is asked, answered and retried meanwhile, a request that nothing answers is written at most fifteen times before a timeout of it is reported, at most eight before one of its ids is found too old for the fourth time, and at most 37 times if the clock may move while the checker handles its copies |
| WsMovingClock.ThirtySevenCopies | liana-business/business-installer/src/client.rs:842-871 | 37 copies can be pending with no timeout reported |
| WsResends.RetryStartsOver | liana-business/business-installer/src/client.rs:842-866 | a retry is queued as a request like any other: the old id waits on with its own count, and whenever the loop comes to the request it waits under a fresh id with no retries |
| WsResends.EightCopies | liana-business/business-installer/src/client.rs:842-871 | eight copies can be pending with no timeout reported and no fourth find under way |
| WsResends.FifteenCopies | liana-business/business-installer/src/client.rs:842-871 | fifteen copies can be pending with no timeout reported |
| WsResends.ResendsAreUnbounded | liana-business/business-installer/src/client.rs:815-875 | for every number there is a run in which a fetch that is never answered is written that often |
| WsWaiting.NeverAborted | liana-business/business-installer/src/client.rs:815-875 | in every run in which the connection lasts and nothing answers a request, with any other requests and replies under way, it stays queued or pending under an id that was not retried yet |
| WsClosure.OrgStaysClosed | liana-business/business-installer/src/client.rs:1371-1434 | after an org is cached every user and wallet it mentions is cached, being fetched or given up on |
| WsClosure.WalletStaysClosed | liana-business/business-installer/src/client.rs:1436-1506 | likewise for a wallet, its owner and the editors in its template |
| WsClosure.UserStaysClosed | liana-business/business-installer/src/client.rs:1508-1539 | likewise for a user and its last editor |
| WsClosure.ReceiveStaysClosed | liana-business/business-installer/src/client.rs:1154-1292 | no message, error, mismatch or unparseable reply breaks that closure |
| WsClosure.StepStaysClosed | liana-business/business-installer/src/client.rs:1065-1147 | no step does: sending, failing to send, timing out, closing, logging out |
| WsClosure.NothingForgotten | liana-business/business-installer/src/client.rs:1355-1539 | in every run with a server that answers the id asked for, everything the caches mention is cached, being fetched, or was given up on since the last logout |
| WsClosure.OrgIsComplete | liana-business/business-installer/src/client.rs:1845-1867 | the user interface gets an org with all its wallets exactly when none of the missing ones is being fetched or was given up on since the last logout |
| WsClosure.LateReplyRefills | liana-business/business-installer/src/client.rs:551-590 | logging out empties the caches and leaves the pending table, so that the object of any accepted reply before the connection closes is cached again |
| WsClosure.EmptyUntilReconnected | liana-business/business-installer/src/client.rs:551-590 | once the connection has ended the caches stay empty until the next one |
| WsCascade.StepDecreases | liana-business/business-installer/src/client.rs:1355-1539 | sending or answering a fetch lowers the lexicographic measure of wallets, uncached users, refetches, fetches, queue |
| WsCascade.CascadeEnds | liana-business/business-installer/src/client.rs:1355-1539 | no run that only sends what is queued and answers fetches is infinite, whatever was outstanding at its beginning, even when users are their own last editors |
| WsCascade.OrgCascadeEnds | liana-business/business-installer/src/client.rs:1371-1434 | so the cascade an org message starts ends, in whatever state of whatever run it arrives |
| WsCascade.CascadeCompletes | liana-business/business-installer/src/client.rs:1355-1539 | with a server that has everything mentioned or asked for, wherever a cascade ends, in whatever order replies came, no fetch is outstanding and everything mentioned is cached |
| WsCascade.OrgCascadeCompletes | liana-business/business-installer/src/client.rs:1371-1434 | so the cascade of an org message completes the caches, whatever fetches were on their way |
| WsCascade.DoneIsComplete | liana-business/business-installer/src/client.rs:1355-1369 | closed caches with no fetch outstanding, and none given up on that is still missing, are complete |
| WsCascade.StuckIsDone | liana-business/business-installer/src/client.rs:1065-1147 | a connection on which no cascade step is possible has no fetch outstanding |
| WsClient.Client.FetchUserMaybe | liana-business/business-installer/src/client.rs:1355-1369 | asks for a user who is named, not nil and not cached, and for nobody else |
| WsClient.Client.HandleOrg | liana-business/business-installer/src/client.rs:1371-1434 | the handler is the machine's step: caches, queue in order, notification |
| WsClient.Client.HandleWallet | liana-business/business-installer/src/client.rs:1436-1506 | likewise for a wallet, which is also listed in its cached org |
| WsClient.Client.HandleUser | liana-business/business-installer/src/client.rs:1508-1539 | likewise for a user, asking before inserting |
| WsClient.Client.HandleDeleteUserOrg | liana-business/business-installer/src/client.rs:1541-1575 | an org our own user was removed from is dropped from the cache and the user interface told; removals of others are ignored |
| WsClient.Client.HandleError | liana-business/business-installer/src/client.rs:1186-1232 | the pending request is dropped; a user the client is not authorized to see is cached as unknown, any other error is shown |
| WsClient.Client.HandleMessage | liana-business/business-installer/src/client.rs:1154-1292 | all the branches on a message: undecodable, no id, unknown id, error, mismatch, reply |
| WsClient.Client.SendNextRequest | liana-business/business-installer/src/client.rs:1067-1100 | the request is filed under a fresh id before it is written, `Close` ends the loop, a failed write undoes and stops |
| WsClient.Client.CollectStale | liana-business/business-installer/src/client.rs:834-841 | the checker copies the entries older than the limit, all of them, in the order of the table |
| WsClient.Client.HandleStale | liana-business/business-installer/src/client.rs:842-871 | a copied entry is retried with its count raised, or dropped with one timeout notification |
| WsClient.Client.Close | liana-business/business-installer/src/client.rs:1877-1897 | closing as a step of the machine |
| WsClient.Client.LogOut | liana-business/business-installer/src/client.rs:551-590 | logging out closes the connection and empties the caches; the table of pending requests stays |
| WsClient.Client.GetOrg | liana-business/business-installer/src/client.rs:1845-1867 | the cached org with those of its wallets that are cached |
| SpendStatus.FirstSignedLaw | liana/src/spend.rs:59-88 | the first signed recovery path is the signed one of least timelock |
| SpendStatus.BroadcastableIff | liana/src/spend.rs:59-88 | broadcastable exactly when the primary path is signed or some signed recovery path has matured for all coins; unsigned exactly when no path is signed |
| SpendStatus.StatusNeverDrops | liana/src/spend.rs:59-88 | signatures and blocks never lower the status |
| CoinSelection.UnpaidSizeBounds | liana/src/spend.rs:375-403 | a coin's added weight pays its ancestors' shortfall with less than one feerate unit to spare |
| CoinSelection.AncestorFeeIsTight | liana/src/spend.rs:512-529 | the ancestor fee covers the exact total shortfall and exceeds it by less than one feerate unit per coin |
| CoinSelection.AddedWeightPays | liana/src/spend.rs:375-403 | paying the rate on a weight and the added weight pays the weight and what every coin's ancestors lack |
| Ancestors.PackageReachesRate | liana/src/spend.rs:374-393 | with ancestors as sets of transactions: a transaction and the union of its coins' ancestors reach a rate exactly when its fee, above its own due, pays what they lack |
| Ancestors.SelectionReachesRate | liana/src/spend.rs:374-403 | for every selection: exactly when the weight added coin by coin, and the surplus, pay what the union lacks; with change and nothing to replace there is no surplus |
| Ancestors.SharedPayNoMoreIsEnough | liana/src/spend.rs:374-403 | every selection does if no ancestor that two of its coins share pays more than the rate |
| Ancestors.ShortfallsCoverUnion | liana/src/spend.rs:374-393 | under that condition the coins' shortfalls cover what the union lacks |
| Ancestors.DisjointIsEnough | liana/src/spend.rs:374-393 | coins that share no ancestor meet the condition |
| Ancestors.SharedAncestorCountsTwice | liana/src/spend.rs:386-387 | two coins over one ancestor that pays double: nothing is added, and the package lacks 1000 sat |
| Ancestors.SharedAncestorMissesRate | liana/src/spend.rs:386-387 | every selection of those two coins with change and nothing to replace misses the rate |
| Ancestors.SharingSelection | liana/src/spend.rs:386-387 | there is such a selection |
| CoinSelection.ChangeTakesTheExcess | liana/src/spend.rs:497-499 | a change output takes the whole excess and is larger than the policy's minimum |
| CoinSelector.Selector.SelectNext | liana/src/spend.rs:472-481 | chooses one more candidate and drops none, or finds all chosen |
| CoinSelector.Fallback | liana/src/spend.rs:466-496 | the loop ends with the first acceptable prefix of the order, on top of the required coins, and fails exactly when no prefix is acceptable, with every candidate chosen |
| FallbackLaws.FallbackIsComplete | liana/src/spend.rs:466-496 | in descending value per weight some prefix is acceptable exactly when any choice of coins is, if there is no fee to replace or all coins weigh the same |
| FallbackLaws.ReplacementMayBeMissed | liana/src/spend.rs:466-496 | with a fee to replace and different weights the fallback may fail although two of three coins would do |
| CoinSelector.SelectCoinsForSpend | liana/src/spend.rs:338-536 | a result is the search's selection or the first acceptable prefix, with its change, largest possible change and ancestor fee; a failure means that no prefix is acceptable, and reports what spending everything misses |
| CoinSelectionLaws.SelectionLaw | liana/src/spend.rs:338-536 | required coins kept, only candidates, none twice, fee at least the one asked for and exactly that with change, change not dust, and present when required |
| CoinSelectionLaws.SelectionPaysForAncestors | liana/src/spend.rs:369-403 | the fee of a selection pays for the transaction at the rate and what every selected coin's ancestors lack |
| CoinSelectionLaws.MissingWithoutChange | liana/src/spend.rs:481-493 | without required change the reported amount is the exact shortage |
| CoinSelectionLaws.MissingWithChange | liana/src/spend.rs:481-493 | with required change the reported amount is the least top-up that makes spending everything acceptable if and only if change wastes less than the dust limit, or by a coincidence that is spelled out |
| CoinSelectionLaws.TopUpLaw | liana/src/spend.rs:474-496 | how much more value makes spending everything acceptable: enough for the smallest change, and no less |
| CoinSelectionLaws.MissingMayBeTooLittle | liana/src/spend.rs:481-493 | two coins at 50 sat/vb for which the reported amount does not suffice |
| CoinSelectionLaws.RequiredAreAllSpent | liana/src/spend.rs:404-411 | coins that all must be selected are all spent, whatever the search and the order |
| Spend.OptionalCoinMayStay | liana/src/spend.rs:667-671 | without destinations the fallback may return a selection that keeps a candidate that need not be selected |
| Spend.SanityCheck | liana/src/spend.rs:176-238 | the checking loops give the verdict of `Sanity` |
| Spend.SanityLaw | liana/src/spend.rs:176-238 | exactly the matching, fully known, dustless PSBTs with a fee in the limits pass, and each refused fee is named |
| CreateSpend.BuildOutputs | liana/src/spend.rs:721-744 | the destinations in order, or the first invalid amount |
| CreateSpend.BuildInputs | liana/src/spend.rs:833-858 | one input in transaction and PSBT for each selected coin, index by index |
| CreateSpend.AddChange | liana/src/spend.rs:797-820 | change is last, present exactly when there is some, and refused when its value is invalid |
| CreateSpend.Warn | liana/src/spend.rs:821-831 | which warnings are given |
| CreateSpend.Finish | liana/src/spend.rs:833-877 | an assembled, sane PSBT conserves value: the coins are worth the outputs and the fee |
| CreateSpend.CreateSpend | liana/src/spend.rs:655-878 | inputs equal outputs plus fee, fee and feerate in their limits and sufficient for ancestors and replacement, outputs are the destinations then the change, a self-send has one output; every refusal is right about its reason, and insufficient funds mean that no choice of coins would do, where the fallback is complete |
| CreateSpend.Assemble | liana/src/spend.rs:797-870 | change, inputs and PSBT around a selection, or a reason that holds of that very transaction |
| CreateSpend.InsanePsbt | liana/src/spend.rs:202-235 | a transaction made of a selection is never refused for a negative fee; each other insanity is what it says |
| CreateSpend.SanityNeverFails | liana/src/spend.rs:185-208 | with descriptors that name keys and scripts not dust above our limit the sanity check does not fail as such |
| CreateSpend.SpendPaysForPackage | liana/src/spend.rs:374-393 | a created spend and its coins' ancestors reach the rate exactly when its fee above its own due pays what they lack, and do under the condition on shared ancestors |
| HotSigner.SignP2wsh | liana/src/signer.rs:237-284 | every key of ours signs or the input is refused as insane; nothing else changes |
| HotSigner.SignTaproot | liana/src/signer.rs:287-356 | key path if the internal key is ours, and every leaf one of our keys is in |
| HotSigner.SignLeaves | liana/src/signer.rs:326-353 | the two nested loops sign exactly our leaves, and fail exactly if one of them cannot be hashed |
| HotSigner.SignPsbt | liana/src/signer.rs:361-401 | the loop over inputs equals the recursive specification |
| HotSigner.P2wshSignaturesVerify | liana/src/signer.rs:261-281 | a signed input is signed by every key of ours, and each signature verifies under the key it is filed for |
| HotSigner.TaprootSignaturesVerify | liana/src/signer.rs:300-353 | every leaf of ours is signed, and the key path exactly if the internal key is ours; the key path signature verifies under the tweaked key, one in a leaf under its key if that is what the path derives, which the code checks for the internal key only |
| HotSigner.SignedLaw | liana/src/signer.rs:361-401 | signing succeeds exactly when every input shows its coin and can be signed on its own; each input gets its own signatures |
| HotSigner.SigsIgnoreSigs | liana/src/signer.rs:237-356 | what is signed does not depend on signatures already there |
| HotSigner.SigningChangesOwnSignatures | liana/src/signer.rs:361-401 | only signature fields change, and only at keys and leaves of the signer (section "Roles" of BIP 174) |
| HotSigner.SigningOrderDoesNotMatter | liana/src/signer.rs:361-401 | signers of different fingerprints give the same PSBT, or the same error, in either order |
| HotSigner.SigningTwice | liana/src/signer.rs:361-401 | signing again changes nothing |
| MnemonicFileName.PrintedNameReadsBack | liana/src/signer.rs:417-498 | a printed name reads back exactly when its checksum has no dash and its timestamp is not negative; any other is refused, never misread |
| MnemonicFileName.ParsedNameReadsBack | liana/src/signer.rs:454-498 | every accepted name prints to one that reads back the same |
| MnemonicFileName.FormsNeverConfused | liana/src/signer.rs:417-498 | the short and the long form are told apart by their dashes |
| MnemonicFileName.PrintIsInjective | liana/src/signer.rs:417-432 | different readable names have different files |
| MnemonicFileName.PrefixAndSuffixApart | liana/src/signer.rs:459-467 | stripping the suffix after the prefix never fails |
| HardwareWallets.Devices.SetAlias | liana-gui/src/hw.rs:185-201 | map and list after setting an alias |
| HardwareWallets.Devices.ResetWatchList | liana-gui/src/hw.rs:203-205 | the list is emptied, the aliases stay |
| HardwareWallets.Devices.LoadAliases | liana-gui/src/hw.rs:207-209 | the map is replaced, the list stays |
| HardwareWallets.Devices.SetNetwork | liana-gui/src/hw.rs:211-214 | the network changes and the list is emptied |
| HardwareWallets.Devices.Update | liana-gui/src/hw.rs:216-314 | list, commands and emptied device cells after each message |
| HardwareWallets.Devices.HandleList | liana-gui/src/hw.rs:222-286 | a device list keeps and adds entries, relabels every supported one and takes every waiting device |
| HardwareWallets.Devices.RefreshEntries | liana-gui/src/hw.rs:226-280 | the loop over the entries: aliases shown, devices taken, commands in order |
| HardwareWallets.EachDeviceUnlockedOnce | liana-gui/src/hw.rs:234-277 | each waiting device of the list is unlocked by one command, even if entries share it |
| HardwareWallets.ListMakesAgree | liana-gui/src/hw.rs:222-233 | a device list makes every alias shown the map's |
| HardwareWallets.RunKeepsAgreement | liana-gui/src/hw.rs:185-314 | no later event but loading aliases breaks that |
| HardwareWallets.LoadKeepsAgreementIff | liana-gui/src/hw.rs:207-209 | loading aliases keeps it exactly when no listed device has another alias in the new map |
| HardwareWallets.LoadMayBreakAgreement | liana-gui/src/hw.rs:207-209 | a map whose loading breaks it |
| HardwareWallets.SetAliasIsExclusive | liana-gui/src/hw.rs:185-201 | after `set_alias` the alias belongs to that fingerprint alone, in map and list, and no other alias changes |
| HardwareWallets.AliasNamesOneDevice | liana-gui/src/hw.rs:185-314 | after a device list, whatever follows, one alias shown twice means one fingerprint |
| HardwareWallets.LateUnlockChangesNothing | liana-gui/src/hw.rs:287-311 | a late answer changes nothing; any other replaces the first locked entry of its id and nothing else |
| HardwareWallets.IdsStayUnique | liana-gui/src/hw.rs:216-314 | ids stay unique if a device list adds only ids it does not also keep |

## Left out

- Catalog.Parse: text is a sequence of characters, so byte offsets inside UTF-8 are not modelled; `char::is_whitespace` is, `char::is_alphanumeric` is a parameter.
- CatalogDir.Tool.SyncCatalogs: files are a map from name to text; reading and writing errors of the file system and printed messages are not modelled.
- RustLexer.CheckIds: the messages printed for each problem are not modelled, only the verdict.
- Fluent output and the generation of locale code: they follow the catalogs without a property of their own.
- WsClient.Client.HandleMessage: handlers are atomic steps; interleavings inside a handler, a second connection opened while an old loop still runs, and JSON decoding (an undecodable message is one case) are not modelled.
- WsProjection.CopiesOfOne: every write succeeds, the connection lasts, and nothing else asks for the same request again.
- WsClosure.NothingForgotten: assumes a server that answers with the object the pending request asked for, which the client does not check.
- WsCascade.CascadeEnds: what is queued is sent and fetches are answered; answers to other requests, timeouts and new requests of the user do not take part.
- WsCascade.OrgCascadeCompletes: the server has everything mentioned or asked for, and no closing of the connection is queued.
- Handshake failures, tokens, one-time-password login and the account cache of the client.
- Fields of wallets, keys and users that no handler looks at.
- FallbackLaws.FallbackIsComplete: the order is exactly descending, where the library compares 32-bit floats, and without equal weights the fixed parts of a transaction weigh the same for any number of inputs, where the count grows by two bytes at 253; with a fee to replace and different weights, when the fallback still finds a choice that exists is not characterised.
- RustTokens.LiteralsAreRusts: the literals are byte and C strings as well as strings, as the scanner has it; which characters words are made of is a parameter.
- CoinSelector.SelectCoinsForSpend: the branch-and-bound search is any acceptable selection or a failure, candidates are visited in any order, feerates are whole numbers and weights are rounded up exactly where the library rounds 32-bit floats; candidates have distinct outpoints.
- CreateSpend.CreateSpend: script, size, weight and derivation functions of descriptors are arbitrary; sums are unbounded integers; the anti-fee-sniping lock time is a parameter.
- SpendStatus.BroadcastableIff: heights and the tip are unbounded integers, where the code uses 32-bit ones.
- HotSigner.SignPsbt: keys, signature hashes and signatures are arbitrary functions; key maps are walked in any order, and inputs are values, so that the half-signed input a failing signer drops with the PSBT is not visible.
- HardwareWallets.Devices.Update: commands are recorded, not run; device discovery, pairing codes, versions and registration are not modelled.
- MnemonicFileName.PrintedNameReadsBack: storing and finding the files is not modelled.
- Views, settings, launcher, downloads, exports, the database and the block chain poller.
