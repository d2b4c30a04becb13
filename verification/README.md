# NinerLog API: verified models

Dafny models of the stateful and language-like parts of the NinerLog flight logbook
service, with proofs of what they promise. `dafny verify dfyconfig.toml` checks all of it.

| modules | part of the service |
|---|---|
| `Common` | what several models share |
| `Like`, `SearchSyntax`, `SearchParser`, `SearchGrammar`, `SearchReading`, `SearchRoundTrip`, `SearchErrors`, `SearchSql` | the flight search language: parser, its concrete grammar in both directions, printer, errors, compiler to parameterized SQL evaluated in three-valued logic |
| `Sessions` | refresh-token sessions: the token table and every interleaving of the calls on it |
| `Idempotency` | idempotent writes: claims, lease, fencing timestamp, takeover, completion, release, reaper |
| `Ordering`, `AirportMerge`, `AirportGrid`, `AirportIndex`, `AirportSearch` | the airport database: merging two sources, the indexes of a snapshot, the searches, the nearest airport, reloading |
| `Signatures`, `Logbook`, `Revisions` | instructor sign-off and the edit lock, the strict logbook's corrections, the revision history |
| `Notifications`, `CrewLinking`, `VCard` | expiry warnings, crew-name linking across transactions, the vCard export |

Where the service is a sequence of calls on a store, each store call is one atomic step, as
its SQL states it, and the theorems are about all runs of such steps. Objects that the source
mutates are classes whose methods are proved against functions of their old state; the
theorems are then about those functions.

## What the proofs found

- A flight is not "locked if and only if signed" (internal/models/flight.go:131-133). A request
  can still be completed on a flight that was meanwhile signed in person, and voiding either
  signature then unlocks a flight that carries the other (`Signatures.UnlockedThoughSigned`).
  `Signatures.StepKeepsSignedIff` says exactly which steps break the equivalence; the one
  direction that matters for edits holds in every run (`Signatures.LocksStaySound`).
- Recording that a mail was sent writes back the whole row that the caller has held since before
  the mail went out (internal/service/flight_signature.go:303-308). That undoes a revocation or a
  completion made meanwhile (`Signatures.StaleMailReopens`), and a resend: the new link dies and
  the old one works again (`Signatures.StaleMailRevertsLink`). Nothing is lost exactly when the
  request is still pending and was not resent (`Signatures.MailKeepsLinkIff`).
- internal/service/contact.go:98-99 says that a crew member with an over-length name is left
  unlinked. It is linked when a short enough name with the same lower-cased form is remembered
  (`CrewLinking.TwinOffends`); lower-casing can shorten a name, as U+212A has three bytes and
  becomes "k". `CrewLinking.AlwaysAgreesIff` says exactly when this cannot happen.
- Longitude exactly 180 is accepted by the merge but never visited by the nearest-airport search
  away from the poles (`AirportSearch.DateLineLoses`). Which stored airports can be lost is
  decided by their latitude (`AirportSearch.DatabaseAgreesIff`).
- The declared cap on durations can be exceeded by up to 59 minutes
  (`SearchSyntax.DurationCapExceeded`).
- `||` is written into the grammar as a symbol for OR (internal/flightsearch/parse.go:99) but never acts
  as one: the AND list in front of it reads it as a term, which is too short
  (`SearchReading.PipesAreRefused`).
- `!=` on the crew and on the approach type is existential, so it is the complement of `=` only
  where all agree (`SearchSql.CrewNeIsComplementIff`, `SearchSql.ApproachNeIsComplementIff`).
- The fencing timestamp is sound exactly as long as claims reach the store before they are late:
  before their own record could have expired or been taken over (`Idempotency.AlwaysFenced`,
  `Idempotency.LateIffBreakable`). The 15-second request timeout against the 60-second lease
  provides that (`Idempotency.TimeoutKeepsPrompt`). The interface comment says a claim is stale
  when taken "before" the bound (internal/repository/interfaces.go:573-574); the SQL also takes
  one taken exactly then, and the model follows the SQL.
- Changes to an entry stay corrections exactly while the entry is signed, closed or certified, so
  a correction that moves its date can make later changes free (`Logbook.FreeAfterSaveIff`).
- Replacing a mailed warning threshold by a larger one that is new mails the larger one afterwards
  (`Notifications.LaterMailNotSmallerIff`).
- A continuation line of the vCard export can hold 76 octets, one more than the limit the source
  names (`VCard.WithinLimitExactly`).

## Assumptions

- Text is a sequence of characters: to be read as the bytes of a Go string in the parser, whose
  limits count bytes, and as the characters of a text in the SQL conditions. Neither looks at
  more than ASCII, and tags and keywords are lower-cased as ASCII, as in the source. How ILIKE folds
  case is part of each row: any character map that leaves the LIKE metacharacters alone. What LOWER
  gives is part of it too: any function. Number, date and clock parsers of the standard library,
  name folding, upper-casing and trimming are function parameters. The theorems hold for all of
  them.
- Numbers in search values are reals; the source's parser also admits NaN and infinities.
- The printer of `SearchRoundTrip` assumes of the field table that every tag is made of letters and resolves to
  itself, as the table at internal/flightsearch/fields.go:54-134 does.
- The nearest-airport theorems take the distance and the cosine as parameters. They assume of
  the distances from the query that a degree of latitude is 60 miles or more, and so is a degree of
  wrapped longitude times the cosine of any latitude that the way does not go beyond, and that the
  cosine is below the polar limit at 90 degrees. `AirportSearch.ExposedIff` also assumes that the
  cosine decreases and is below the polar limit at 90 degrees, and that between latitudes of the
  globe a degree is a fixed number of miles along a meridian, at least 60, with no shorter way.
  Arithmetic is on reals.
- Records handed to a snapshot are keyed by their own ICAO code.
- Fresh ids and tokens are distinct from those in use; the signed-fields hash is any function.
- The lower-cased key of a name, its key in the database and its length limit are three unrelated
  function parameters of `CrewLinking`.
- `Revisions.ChangesRebuild` and `Revisions.ReplayLeadsIff` are about columns whose field names can be
  read back, which `Revisions.ReadsBackIff` characterises, and which do not read as the crew.
- Clock readings never go back. Stored timestamps are rounded to microseconds, ties to even.

## Model

| member | source | states |
|---|---|---|
| `Like.ContainsPatternCorrect` | internal/flightsearch/sql.go:50-61 | for every value and text, LIKE on the pattern built around the escaped value matches exactly when some substring of the text matches the value read as a glob: `*` is any run, every other character, `%`, `_` and backslash included, is itself |
| `Like.ILikeContains` | internal/flightsearch/sql.go:128-135 | the same for the case-insensitive match of the text filters, for every way a database may fold case character by character |
| `Like.EscapeCommutesWithFold` | internal/flightsearch/sql.go:50-56 | escaping a value and folding its case commute, for every folding that leaves the metacharacters alone |
| `Like.EscapedThenPercent` | internal/flightsearch/sql.go:50-61 | an escaped value followed by `%` matches exactly the texts with a prefix that the value matches as a glob |
| `SearchSyntax.DurationCap` | internal/flightsearch/sql.go:237-267 | an H:MM duration exceeds the declared cap exactly when the hour count is maximal and the minutes are not zero |
| `SearchSyntax.DurationCapExceeded` | internal/flightsearch/sql.go:237-267 | "8784:59" is accepted although it is 59 minutes over the declared cap |
| `SearchSyntax.BooleanReads` | internal/flightsearch/sql.go:269-277 | a boolean value is true exactly when it is "true", "yes" or "1" and false exactly when it is "false", "no" or "0", the words in any case |
| `SearchSyntax.DurationReads` | internal/flightsearch/sql.go:243-267 | a duration is read as the minutes it says: hours and two-digit minutes around the first colon, a number of hours with an h to the nearest minute, or plain minutes; anything else is refused |
| `SearchSyntax.DurationReadsBack` | internal/flightsearch/sql.go:243-267 | minutes written as H:MM, as a plain number or as hours with an h read back as those minutes |
| `SearchSyntax.AcceptedIff` | internal/flightsearch/sql.go:73-126 | a condition is accepted exactly when its operator suits the tag and its value says something of the tag's kind |
| `SearchSql.CompilePreservesMeaning` | internal/flightsearch/sql.go:25-48 | for every typed query, start number, flight row and parameter list that binds the arguments, the compiled condition evaluated in three-valued logic equals the query's own and/or/not/leaf meaning |
| `SearchSql.LeafPreserved` | internal/flightsearch/sql.go:73-235 | the same for every kind of condition: text, number, duration, date, clock, boolean, crew, approach, signed and free text |
| `SearchSql.FreeTextMeaning` | internal/flightsearch/sql.go:58-71 | a bare term holds exactly when the registration, the type, the departure or arrival airport, the route, the remarks, the instructor's or the pilot's name, or a crew name contains it |
| `SearchSql.BooleanTags` | internal/flightsearch/sql.go:160-235 | `signed:true` is the flight's own answer, `signed:false` and `signed!=true` its opposite, and so on for every word, operator and boolean column |
| `SearchSql.DateCodeMeaning` | internal/flightsearch/sql.go:174-198 | each date operator compares with the whole day or month that the value names, not with its first instant |
| `SearchSql.PlaceholderNumbering` | internal/flightsearch/sql.go:17-31 | the placeholders of a compiled query, in first-use order, are exactly startArg up to startArg plus the number of arguments |
| `SearchSql.StartArgOnlyRenames` | internal/flightsearch/sql.go:25-31 | compiling from another start number gives the same arguments and the same condition with every placeholder moved by the difference |
| `SearchSql.CrewNeIsComplementIff` | internal/flightsearch/sql.go:200-208 | on the crew `!=` is the complement of `=` exactly when there is a crew and its members all agree on the value |
| `SearchSql.ApproachNeIsComplementIff` | internal/flightsearch/sql.go:210-218 | on the approaches likewise, exactly when some approach has a type and all that have one agree on the value |
| `SearchSql.NeIsNoComplement` | internal/flightsearch/sql.go:200-218 | neither is a complement in general: two members or approaches that differ satisfy both `=` and `!=`, an empty list neither |
| `SearchSql.SqlBuilder.Bind` | internal/flightsearch/sql.go:17-23 | binding returns the next number and appends the value |
| `SearchSql.SqlBuilder.RenderText` | internal/flightsearch/sql.go:128-147 | renders a text condition: SQL and arguments of the compiler function, appended to the builder |
| `SearchSql.SqlBuilder.RenderDate` | internal/flightsearch/sql.go:174-198 | renders a date condition, appended to the builder |
| `SearchSql.SqlBuilder.RenderFreeText` | internal/flightsearch/sql.go:58-71 | renders a bare term with one argument shared by every column |
| `SearchSql.SqlBuilder.RenderLeaf` | internal/flightsearch/sql.go:73-235 | renders any condition, appended to the builder |
| `SearchSql.SqlBuilder.Render` | internal/flightsearch/sql.go:33-40 | renders a tree, appended to the builder |
| `SearchSql.SqlBuilder.RenderChildren` | internal/flightsearch/sql.go:42-48 | renders the children from left to right |
| `SearchSql.CompileQuery` | internal/flightsearch/sql.go:25-31 | the returned SQL and arguments number their placeholders in first-use order and mean the query on every row |
| `SearchParser.ParseWithinBudgets` | internal/flightsearch/parse.go:29-57 | on every input a returned query has between 1 and 50 terms, at most 5 free-text terms, and only values that passed validation |
| `SearchParser.UnaryAccounts` | internal/flightsearch/parse.go:152-186 | the counters advance by exactly the conditions of the tree that was read, and stay within both budgets |
| `SearchParser.OrAccounts` | internal/flightsearch/parse.go:88-115 | the same across OR lists |
| `SearchParser.AndAccounts` | internal/flightsearch/parse.go:117-150 | the same across AND lists |
| `SearchParser.Parser.Skip` | internal/flightsearch/parse.go:74-78 | advances past white space and stays within the input |
| `SearchParser.Parser.ConsumeToken` | internal/flightsearch/parse.go:321-363 | consumes a keyword or symbol exactly where the grammar has one |
| `SearchParser.Parser.ReadWord` | internal/flightsearch/parse.go:248-259 | reads the longest run up to white space, a parenthesis or an operator |
| `SearchParser.Parser.ReadOperator` | internal/flightsearch/parse.go:261-280 | reads the longest operator at the position |
| `SearchParser.Parser.ReadQuoted` | internal/flightsearch/parse.go:297-319 | reads a quoted value with its backslash escapes, or fails without a closing quote |
| `SearchParser.Parser.ReadTagValue` | internal/flightsearch/parse.go:282-295 | reads a quoted or bare value |
| `SearchParser.Parser.FreeTextCondition` | internal/flightsearch/parse.go:235-245 | counts the term against the free-text budget and refuses one that is too short |
| `SearchParser.Parser.ParseTerm` | internal/flightsearch/parse.go:191-233 | reads one condition, counting it against the term budget |
| `SearchParser.Parser.Unary` | internal/flightsearch/parse.go:152-186 | reads a negation, a group, a condition or nothing, terminating with the position inside the input |
| `SearchParser.Parser.AndExpr` | internal/flightsearch/parse.go:117-150 | reads an AND list, explicit or by adjacency, up to the keyword OR |
| `SearchParser.Parser.OrExpr` | internal/flightsearch/parse.go:88-115 | reads an OR list |
| `SearchParser.ParseQuery` | internal/flightsearch/parse.go:38-57 | the parser object agrees with the grammar on every input, errors and their positions included, and what it returns is typed and within both budgets |
| `SearchReading.BareValueReads` | internal/flightsearch/parse.go:282-295 | a bare value, a run without white space or parenthesis that no quote starts, is read whole, up to the end of input or the character that ends it |
| `SearchReading.QuotedReadsBack` | internal/flightsearch/parse.go:297-319 | a text between quotes, with its backslash escapes, is read as the text it means |
| `SearchReading.TagParses` | internal/flightsearch/parse.go:201-233 | a tag in any case, an operator and a bare or quoted value parse as that condition on the indexed field, wherever they stand |
| `SearchReading.FactorParses` | internal/flightsearch/parse.go:152-186 | a condition, a negation written NOT or with a minus, or a group, spelled clearly at any place of any input, parses as its tree and is consumed exactly |
| `SearchReading.SpellingParses` | internal/flightsearch/parse.go:29-57 | every clear spelling of a query within the limits parses to its tree: bare or quoted terms and values, operands joined by standing next to each other, by `AND` or by `&&`, negated by `NOT` or `-`, grouped, keywords in any case and white space anywhere between; AND binds tighter than OR |
| `SearchReading.PipesAreRefused` | internal/flightsearch/parse.go:97-101 | the doubled pipe behind operands never acts as OR: whatever follows, the query is refused |
| `SearchRoundTrip.ParsedIsSpelled` | internal/flightsearch/parse.go:29-57 | conversely, on every input: whatever parses is a spelling, in that grammar, of the tree it gives, with nothing before or after it but white space |
| `SearchErrors.ErrorsAreTrue` | internal/flightsearch/parse.go:29-319 | whatever error a query is refused with is true of it at the place it names: a tag that is not indexed, an operator without a value, a quote that nothing closes, a term that is too short, a connective with nothing behind it, a group that is empty or not closed, a value its tag does not take, a stray operator or parenthesis, a blank or too long query |
| `SearchRoundTrip.PrintParseRoundTrip` | internal/flightsearch/parse.go:29-57 | printing any well-shaped tree within the length and term limits and parsing it gives the same tree back |
| `SearchRoundTrip.CanonicalSpelling` | internal/flightsearch/parse.go:38-57 | whatever spelling a query came in, parsing its printed form gives the same tree, or the too-long error exactly when the printed form is too long |
| `Sessions.Policy.Normalized` | internal/service/session.go:31-41 | each setting is kept when positive and replaced by its default otherwise |
| `Sessions.DeadForever` | internal/service/auth.go:395-456 | in every interleaving of refreshes, logins, logouts, revocations, evictions, sweeps, crashes and clock ticks, a session that has lost its last live token never becomes live again |
| `Sessions.NoMintAfterDeath` | internal/service/auth.go:661-707 | a refresh that was in flight when its session ended mints nothing, whatever happened in between |
| `Sessions.AlwaysOwned` | internal/service/auth.go:395-480 | in every run a session has one owner and every call in flight knows it |
| `Sessions.LogoutIsFinal` | internal/service/auth.go:467-480 | once a logout has returned its session is dead for the rest of the run, overlapping refreshes included |
| `Sessions.ReuseIsFinal` | internal/service/auth.go:412-431 | once a replayed token has been answered, its session is dead for the rest of the run |
| `Sessions.PasswordChangeIsFinal` | internal/service/auth.go:817-850 | once a password change has revoked them, all sessions the user then had are dead for the rest of the run |
| `Sessions.RefreshesKeepSession` | internal/service/auth.go:436-455 | while nothing revokes the session or deletes its newest token, any number of overlapping refreshes keep that token unrotated, and every thread about to mark a token of the session has already created a later one; other sessions, account clearings, sweeps and the session's older rows are free |
| `Sessions.RefreshesKeepSessionLive` | internal/service/auth.go:436-455 | while moreover that newest token has not expired, the session is live |
| `Sessions.OnlyMarkRevokes` | internal/repository/postgres/refresh_token.go:156-169 | of such a session, a step may revoke only a token that has a successor |
| `Sessions.FreshLoginIsKept` | internal/service/session.go:80-91 | a fresh login is such a session |
| `Sessions.EvictionMakesRoom` | internal/repository/postgres/refresh_token.go:322-355 | evicting the least recently used sessions leaves exactly the others and at most the number asked for |
| `Sessions.SessionCap` | internal/service/session.go:78-91 | with at most k logins past eviction at any time and evictions succeeding, live sessions never exceed MaxPerUser - 1 + k |
| `Sessions.TokenStore.CreateInLiveSession` | internal/repository/postgres/refresh_token.go:56-77 | inserts exactly when the session holds a live token of the user |
| `Sessions.AuthService.RefreshToken` | internal/service/auth.go:395-456 | the call run alone: which error or new token, and the table it leaves |
| `Sessions.RefreshOutcomes` | internal/service/auth.go:408-456 | every outcome of a refresh as an if-and-only-if on the presented row and the clock: unknown, expired, revoked outright, replayed exactly when it was superseded longer ago than the grace, or served; a retry within the grace is served |
| `Sessions.RefreshEffects` | internal/service/auth.go:419-456 | what each outcome leaves behind: a new token and, unless it was a retry, the presented one superseded; the whole session and nothing else revoked; or nothing changed |
| `Sessions.DecisionIff` | internal/service/auth.go:408-434 | in any interleaving, what a refresh in flight decides about the row it has read, as an if-and-only-if for each branch |
| `Sessions.ReuseOnlyAfterGrace` | internal/service/auth.go:419-431 | in every run a session is revoked for reuse only on behalf of one of its tokens, and only later than the grace after a refresh superseded that token |
| `Sessions.RevokesExactly` | internal/repository/postgres/refresh_token.go:189-320 | each way of ending sessions revokes the rows meant and changes nothing else |
| `Sessions.EvictionSparesLatest` | internal/repository/postgres/refresh_token.go:322-355 | a session used later than all the user's others is not evicted while any is to stay |
| `Sessions.RefreshAloneIsARun` | internal/service/auth.go:395-456 | the call run alone is one of the interleavings the theorems above speak about |
| `Idempotency.Policy.Normalized` | internal/service/idempotency.go:93-110 | each setting is kept when positive and replaced by its default otherwise |
| `Idempotency.FenceStrictIff` | internal/service/idempotency.go:118-137 | every takeover strictly raises the claim timestamp exactly when both the lease and the TTL exceed half a microsecond, the rounding of stored timestamps |
| `Idempotency.LapsedMeansLate` | internal/repository/postgres/idempotency.go:31-80 | a record can be taken over only once its own claim has expired, or is in progress past its lease |
| `Idempotency.AlwaysFenced` | internal/service/idempotency.go:118-186 | in every run whose claims arrive before they are late, running requests on one key have distinct fences, and each holds the stored claim or is late |
| `Idempotency.OneHolder` | internal/service/idempotency.go:118-186 | at most one running request matches the stored record |
| `Idempotency.GoneForever` | internal/repository/postgres/idempotency.go:106-148 | a claim that has been superseded is never the stored one again |
| `Idempotency.SupersededIsHarmless` | internal/service/idempotency.go:159-186 | Finish or Abandon by a request that has lost its claim, however late, changes no record |
| `Idempotency.TwoClaims` | internal/service/idempotency.go:115-137 | over every run with prompt claims, two winning claims on one key are separated by the first holder's release, by the TTL, or by the lease with no completion |
| `Idempotency.ClaimFate` | internal/service/idempotency.go:115-186 | at every later point a winning claim still stands, was released by its holder, has expired, or was taken over after its lease without having completed |
| `Idempotency.ReplayIsFaithful` | internal/service/idempotency.go:139-180 | every replay returns exactly the response with which the key's last winning claim finished, to a request of equal hash |
| `Idempotency.NotReplayableMeansLost` | internal/service/idempotency.go:145-147 | a key reported as not replayable was completed by its last winning claim, of the same hash, with a response that was not captured or was too large |
| `Idempotency.VerdictIff` | internal/service/idempotency.go:139-156 | what a request that could not claim is told, as an if-and-only-if on the record for each verdict |
| `Idempotency.VerdictTellsStory` | internal/service/idempotency.go:139-156 | in every run: a key in use is reported as used for another payload exactly when its last winning claim had another hash, as busy exactly when that claim has not completed, and otherwise, completed once, is replayed with the very response or reported as not replayable exactly when that was not kept |
| `Idempotency.LateClaimSharesFence` | internal/service/idempotency.go:118-137 | for every timestamp and every arrival at which the claim is late there is a run that ends with two running requests holding one record |
| `Idempotency.LateIffBreakable` | internal/service/idempotency.go:118-137 | the guard is exact for all settings: a claim can leave two requests with one fence, in a run whose other claims are prompt, exactly when a prompt claim at its timestamp was possible and its record may have expired or been taken over by its arrival; for settings above half a microsecond that is exactly when it arrives late |
| `Idempotency.TimeoutKeepsPrompt` | internal/service/idempotency.go:23-26 | a request timeout a microsecond clear of the lease and the TTL keeps every claim prompt |
| `Idempotency.Repository.Claim` | internal/repository/postgres/idempotency.go:28-80 | takes the key exactly when it is free, expired or past its lease, and otherwise returns the record in the way |
| `Idempotency.Repository.Complete` | internal/repository/postgres/idempotency.go:106-130 | completes only the claim with that timestamp |
| `Idempotency.Repository.Release` | internal/repository/postgres/idempotency.go:132-138 | drops only the claim with that timestamp |
| `Idempotency.Service.Begin` | internal/service/idempotency.go:115-157 | the verdict and the table after a claim attempt |
| `Idempotency.Service.Finish` | internal/service/idempotency.go:159-180 | stores the response, or completion without one when it was not captured or is too large |
| `Idempotency.Service.Abandon` | internal/service/idempotency.go:182-186 | releases the claim |
| `AirportGrid.WrapIff` | internal/airports/index.go:267-268 | the truncating remainder lands on a cell exactly when the two differ by whole turns |
| `AirportGrid.BoxIsCovered` | internal/airports/index.go:253-273 | every place within the two distance bounds and short of longitude 180 lies in a cell that the search visits, the 180-cell clamp included |
| `AirportGrid.DateLineIsMissed` | internal/airports/index.go:267-269 | the cell of longitude exactly 180 is never visited |
| `AirportSearch.Snapshot.Nearest` | internal/airports/index.go:226-281 | returns an airport at minimal distance within range among those it can see, and nothing exactly when none is in range; near the poles it sees every airport |
| `AirportSearch.BoxIsWideEnough` | internal/airports/index.go:241-254 | the box, widened by the cosine at its highest latitude, holds every airport in range, unless the search falls back to a full scan |
| `AirportSearch.WalkIsNearest` | internal/airports/index.go:252-274 | the grid walk finds what a scan of the visible airports finds |
| `AirportSearch.ScanIsNearest` | internal/airports/index.go:247-251 | so does the polar scan |
| `AirportSearch.NearestIsScanIff` | internal/airports/index.go:226-281 | the answer is a full scan's exactly when no airport at longitude 180 is strictly nearer than all others; always when every stored longitude is below 180 |
| `AirportSearch.DateLineLoses` | internal/airports/index.go:247-280 | it does happen: a query that stands on the only airport, at valid coordinates with longitude 180 and away from the poles, can only be answered with nothing |
| `AirportSearch.AnyPartAgreesIff` | internal/airports/index.go:226-281 | whatever part of a database is loaded, every query agrees with a full scan exactly when no stored airport at longitude 180 is in range of a query that is not polar |
| `AirportSearch.ExposedIff` | internal/airports/index.go:241-252 | whether one is, is decided by its latitude: by the cosine seen from the latitude nearest the equator that has it in range |
| `AirportSearch.DatabaseAgreesIff` | internal/airports/merge.go:17-25 | so agreement on all queries can be read off the stored coordinates |
| `AirportSearch.PolarAtHomeIsNotEnough` | internal/airports/index.go:241-252 | an airport on which the search would be polar is still lost to any query on its meridian that has it in range and is not polar itself |
| `AirportSearch.WalkGrid` | internal/airports/index.go:261-273 | the nested loops consider the members of every visited cell, in order |
| `AirportIndex.KeyIndexAgrees` | internal/airports/index.go:57-67 | a key is in the index exactly when an airport carries it, resolves to i exactly when i is its only carrier, and is ambiguous exactly when several carry it |
| `AirportIndex.KeyIndexUnique` | internal/airports/index.go:19-26 | so the index does not depend on the order in which it was built |
| `AirportIndex.AddKeyExtends` | internal/airports/index.go:57-67 | adding one more key for the current airport keeps the index exact |
| `AirportIndex.ListUnique` | internal/airports/index.go:84-87 | the sorted list does not depend on the order in which the records are visited |
| `AirportIndex.LocalsUnique` | internal/airports/index.go:108-113 | neither does the list of unambiguous local codes |
| `AirportIndex.GridUnique` | internal/airports/index.go:105-106 | nor the grid |
| `AirportIndex.SnapshotUnique` | internal/airports/index.go:73-115 | all that a snapshot holds is determined by the records, whatever the iteration orders |
| `AirportIndex.SortedList` | internal/airports/index.go:84-87 | the list holds exactly the records, strictly sorted by code |
| `AirportIndex.IndexAll` | internal/airports/index.go:89-107 | every index agrees with the list |
| `AirportIndex.LocalEntries` | internal/airports/index.go:108-113 | exactly the unambiguous local codes, in code order |
| `AirportSearch.Snapshot.constructor` | internal/airports/index.go:73-115 | a snapshot's indexes agree with its list and its list with the records |
| `AirportSearch.Snapshot.Lookup` | internal/airports/index.go:124-132 | finds the airport with the code, and nothing exactly when no airport has it |
| `AirportSearch.Snapshot.LookupCode` | internal/airports/index.go:134-150 | the code wins; otherwise the only carrier of the local code, and ambiguous exactly when several carry it |
| `AirportSearch.Snapshot.LookupName` | internal/airports/index.go:172-184 | the only carrier of the folded name, and ambiguous exactly when several carry it |
| `Ordering.LowerBound` | internal/airports/index.go:159-211 | the bisection: everything before is below the prefix, nothing from there on is |
| `Ordering.PrefixesContiguous` | internal/airports/index.go:208-220 | in a sorted list the codes with a prefix end where the first one lacks it |
| `AirportSearch.SearchPrefix` | internal/airports/index.go:208-220 | exactly the airports whose code has the prefix, in code order, cut at the limit |
| `AirportSearch.SearchLocal` | internal/airports/index.go:152-170 | appends exactly those behind an unambiguous local code with the prefix and not listed before, in code order, cut at the limit |
| `AirportSearch.SearchName` | internal/airports/index.go:186-206 | appends exactly those with a matching name word and not listed before, cut at the limit |
| `AirportSearch.Snapshot.Search` | internal/airports/airports.go:336-361 | the three stages one after the other, each without what came before, cut once at the limit |
| `AirportSearch.StagesCut` | internal/airports/airports.go:350-353 | cutting after each stage is the same as cutting once at the end |
| `AirportSearch.SearchIsComplete` | internal/airports/airports.go:336-361 | before the cut a search lists exactly the airports whose code, unambiguous local code or name word starts with the query |
| `AirportSearch.SearchAnswers` | internal/airports/airports.go:336-361 | a search answers nothing to a blank query or without room; otherwise only airports that are wanted, no more than there is room for, and all of them when the room suffices |
| `AirportSearch.NameMatchesIff` | internal/airports/name.go:62-66 | a name matches exactly when the query stands in it at its start or behind a space |
| `AirportSearch.SearchNoRepeats` | internal/airports/airports.go:336-361 | no airport is listed twice |
| `AirportMerge.Score` | internal/airports/merge.go:27-32 | below zero exactly for unusable coordinates |
| `AirportMerge.ScoreWeights` | internal/airports/merge.go:33-53 | filling in a missing field of a usable record raises its score by that field's weight, and nothing else counts |
| `AirportMerge.FillGaps` | internal/airports/merge.go:109-135 | keeps the base record's code and coordinates, replaces nothing the base knows, misses nothing the other knows, elevation included, is marked as merged, and is at least as complete as both records |
| `AirportMerge.MergedRecord` | internal/airports/merge.go:55-92 | each merged record has usable coordinates, taken as a pair from the more complete record, OurAirports on a tie, and is at least as complete as every record of its code |
| `AirportMerge.KindIff` | internal/airports/merge.go:5-13 | how each code is counted, by what the sources say: only one has it, the more complete record is preferred, OurAirports on a tie, or dropped for want of usable coordinates |
| `AirportMerge.CountsConserve` | internal/airports/merge.go:5-13 | every code of either source is counted once and is merged or dropped; the preferences add up to the codes found in both |
| `AirportMerge.MergeSources` | internal/airports/merge.go:55-107 | the merge and its counts, whatever the iteration order |
| `AirportSearch.Database.Reload` | internal/airports/airports.go:130-218 | no swap when no source delivered; otherwise a swap exactly unless the merge has less than half as many airports as the live snapshot; the new snapshot holds the merged records, all with usable coordinates |
| `AirportSearch.LoadedIff` | internal/airports/airports.go:130-218 | loaded are exactly the codes that a source delivered at a place on the globe other than 0 N 0 E, one airport each |
| `Signatures.ClampExpiryHours` | internal/service/flight_signature.go:158-170 | the default when nothing is requested, otherwise the requested value or the limit it exceeds |
| `Signatures.StepKeepsSoundIff` | internal/service/flight_signature.go:172-349 | a step keeps every lock pointer on a completed signature of its own flight over its current fields, exactly when it is not a void cut short between its two writes |
| `Signatures.StepEffect` | internal/service/flight_signature.go:172-529 | all that any step can do: edit unlocked flights, add one row to an unlocked flight, move one row on, expire pending rows, or drop flights with their rows |
| `Signatures.LocksStaySound` | internal/service/flight_signature.go:172-529 | in every run of sign, request, resend, revoke, void, complete, expire, create, edit and delete, a non-nil lock pointer names a completed signature of that flight whose hash is that of the flight's current fields |
| `Signatures.StatusesMoveForward` | internal/models/flight_signature.go:24-43 | over any run statuses move only from pending to completed, revoked or expired and from completed to voided, and what was signed keeps its hash and signer, what is no longer pending its token |
| `Signatures.AlwaysOnePending` | internal/service/flight_signature.go:217-265 | a flight never has two pending requests |
| `Signatures.StepKeepsSignedIff` | internal/models/flight.go:131-133 | "locked exactly when signed" survives a step exactly when the step is not a completion on an already locked flight and not a signing cut short before it locks |
| `Signatures.LockedIffSigned` | internal/models/flight.go:131-133 | in runs without such steps a flight is locked exactly when it has a completed signature |
| `Signatures.UnlockedThoughSigned` | internal/service/flight_signature.go:446-496 | from every state with a pending request there is a run of whole calls that ends with the flight open, edited, and still carrying a completed signature that no longer matches |
| `Signatures.TokensStayUnique` | internal/service/flight_signature.go:222-299 | in every run a token leads to one request |
| `Signatures.LinkWorksOnce` | internal/service/flight_signature.go:446-529 | after a completion the same token completes nothing more while its request exists, whatever happens in between, and the request is never completed again |
| `Signatures.MailKeepsSoundIff` | internal/service/flight_signature.go:301-308 | writing back a held row after mailing keeps the locks sound exactly when that row does not lock its flight or still says completed with the same hash |
| `Signatures.MailKeepsHistoryIff` | internal/service/flight_signature.go:301-308 | written back from a pending copy, the row keeps its history exactly when the request is still pending, and then the locks too |
| `Signatures.MailKeepsLinkIff` | internal/service/flight_signature.go:301-308 | status, token and expiry all stay exactly when the request is still pending and was not resent meanwhile |
| `Signatures.StaleMailRevertsLink` | internal/repository/postgres/flight_signature.go:190-240 | a request resent while its mail was sent goes back to the old link: the new token leads nowhere and the old one works again |
| `Signatures.StaleMailReopens` | internal/service/flight_signature.go:301-308 | a request revoked while its mail was sent becomes pending again; one completed meanwhile leaves its flight locked by a pending request |
| `Signatures.OwnerCallsIff` | internal/service/flight_signature.go:120-349 | when each call of the flight's owner goes through, as an if-and-only-if: only for the owner, only in the state it needs, only with a proper signer or reason |
| `Signatures.CompletionIff` | internal/service/flight_signature.go:446-529 | a token completes its request exactly when its row is pending and in time, the signer proper, and the flight there and, when the signer says what was seen, unchanged since |
| `Signatures.FailuresChangeNothing` | internal/service/flight_signature.go:120-529 | a call that fails changes nothing, but that a lapsed request is marked expired |
| `Signatures.LinkLifetime` | internal/service/flight_signature.go:153-300 | a link works for exactly the hours asked for, held between 1 and 720, or 168 when none are named or it was resent |
| `Signatures.StrangersChangeNothing` | internal/service/flight_signature.go:120-349 | over any run of calls in other users' names nothing of a user's flights, signatures and requests changes |
| `Signatures.SignatureService.SignLive` | internal/service/flight_signature.go:172-215 | which error, or the new signature and the lock |
| `Signatures.SignatureService.CreateRequest` | internal/service/flight_signature.go:217-265 | which error, or the new pending request |
| `Signatures.SignatureService.Resend` | internal/service/flight_signature.go:267-299 | which error, or the rotated token and expiry |
| `Signatures.SignatureService.Revoke` | internal/service/flight_signature.go:317-325 | which error, or the revoked request |
| `Signatures.SignatureService.Void` | internal/service/flight_signature.go:327-349 | which error, or the voided signature and the unlocked flight |
| `Signatures.SignatureService.LookupPendingByToken` | internal/service/flight_signature.go:498-529 | which error for an unknown, used or lapsed token; a lapsed one is marked expired |
| `Signatures.SignatureService.CompleteFromToken` | internal/service/flight_signature.go:446-496 | which error, or the completed signature over the current fields and the lock |
| `Logbook.Deadline` | internal/service/logbookrules/rules.go:145-162 | the earliest deadline across the required windows, or the end of the flight day |
| `Logbook.DeadlineIsEarliest` | internal/service/logbookrules/rules.go:145-172 | that deadline is one of the windows' and none is earlier |
| `Logbook.CorrectionsStay` | internal/service/logbook.go:273-318 | once a change to an entry is a correction it stays one for the rest of the run while the entry keeps its timing and overrides, whatever happens to time, certifications, signatures and other entries |
| `Logbook.SignedStaysCorrection` | internal/service/logbook.go:281-291 | for a flight that was ever signed every later change is a correction, with no proviso |
| `Logbook.CorrectionForGoodIff` | internal/service/logbook.go:273-318 | changes to an entry are corrections in every later run, while it keeps its timing and overrides, exactly when it was ever signed, its window has closed or its date is certified |
| `Logbook.FreeIff` | internal/service/logbook.go:273-318 | when a change is free, spelled out: never signed, no date certified, every required window open, and no override raised after the flight day |
| `Logbook.CertifiableIff` | internal/service/logbook.go:202-227 | a date can be certified exactly when it has begun somewhere on earth, up to 14 hours ahead of UTC, and does not go back behind what is certified; which refusal otherwise |
| `Logbook.FlightDayEndsAtMidnight` | internal/service/logbookrules/rules.go:174-180 | the flight day ends at the midnight of mean solar time at the longitude, to the nearest whole hour |
| `Logbook.FreeAfterSaveIff` | internal/service/logbook.go:273-318 | after a save they are exactly when the flight was ever signed or the saved entry itself is closed or certified, whatever held before |
| `Logbook.MovedEntryIsFreeAgain` | internal/service/logbook.go:297-318 | so a correction can free an entry whose changes were corrections for good |
| `Logbook.SignOffEvolves` | internal/service/flight_signature.go:172-529 | every step of the sign-off service is a signature step of the logbook run |
| `Logbook.Corrections` | internal/service/logbook.go:340-351 | flags exactly the listed rows that are signed, closed or certified |
| `Logbook.BulkAgreesWithSingle` | internal/repository/postgres/restore.go:168-187 | the bulk classifier flags exactly the flights whose single deletion is a correction, though it reads only the timings |
| `Logbook.LogbookService.CreateCertification` | internal/service/logbook.go:202-227 | which refusal, or the new certified date |
| `Logbook.LogbookService.Classify` | internal/service/logbook.go:273-292 | the verdict on an edit or a deletion |
| `Logbook.LogbookService.IsOutsideWindow` | internal/service/logbook.go:294-318 | window closed, certified range, or a late override |
| `Logbook.AnyOverrideTouched` | internal/service/logbook.go:402-421 | some override is new or has another value |
| `Logbook.ExceededOverrides` | internal/service/logbook.go:439-463 | in strict mode under a downward-only rule exactly the new or changed overrides above what is calculated with none set, otherwise none |
| `Revisions.SameCrewIff` | internal/models/crew_key.go:34-45 | two crews are the same exactly when they have the same members by name and role, each as often |
| `Revisions.InOrderCanonical` | internal/models/crew_key.go:14-22 | a sorted crew list is determined by its members |
| `Revisions.SortCrewKeys` | internal/models/crew_key.go:14-22 | sorts in place by role, then name |
| `Revisions.CamelField` | internal/service/logbook_revisions.go:58-73 | the loop builds the field name |
| `Revisions.ReadsBackIff` | internal/service/logbook_revisions.go:58-73 | the field name gives the column back exactly when the column has no capitals and every underscore stands before a small letter |
| `Revisions.SharedFieldIff` | internal/service/logbook_revisions.go:58-73 | two columns share a field name exactly when they have the same canonical name |
| `Revisions.DiffFlightStates` | internal/service/logbook_revisions.go:103-150 | the changes over the sorted reported columns of either state, then the crew |
| `Revisions.ChangesUnique` | internal/service/logbook_revisions.go:115-128 | the changes do not depend on the order in which the columns were visited |
| `Revisions.NoChangesIff` | internal/service/logbook_revisions.go:103-150 | the list of changes is empty exactly when no reported column differs, absent and null being the same, and the crews are equal as multisets |
| `Revisions.ChangesRebuild` | internal/service/logbook_revisions.go:103-150 | applying the changes between two states to anything that agrees with the first gives something that agrees with the second |
| `Revisions.UndoneChanges` | internal/service/logbook_revisions.go:103-150 | the change list is symmetric: read the other way round it is that of the two states exchanged |
| `Revisions.ChangesUndo` | internal/service/logbook_revisions.go:103-150 | so undoing the changes takes whatever agrees with the second state back to the first |
| `Revisions.RevisionViews` | internal/service/logbook_revisions.go:159-187 | each revision is compared with the next snapshot, or with the present state |
| `Revisions.ReplayLeadsIff` | internal/service/logbook_revisions.go:159-187 | applying a flight's change lists in order to its first snapshot leads through every later state, on all reported columns and the crew, exactly when no void record lies between two different states |
| `Revisions.ReplayReachesEnd` | internal/service/logbook_revisions.go:163-187 | so with nothing but edits before the end it reaches the present state, and for a deleted flight the snapshot on its void record |
| `Notifications.CrossedThresholds` | internal/service/notification.go:263-282 | the thresholds at or above the days left, without repeats and ascending |
| `Notifications.MailsDecrease` | internal/service/notification.go:233-250 | along any run of checks with any days and any failures, the mailed thresholds are strictly decreasing, so each is mailed at most once |
| `Notifications.FartherStayRecorded` | internal/service/notification.go:233-250 | from the moment a threshold is mailed, it and every farther one stay on record |
| `Notifications.CheckKeeps` | internal/repository/postgres/notification.go:68-113 | a check loses no row, and mails only a threshold that was not on record |
| `Notifications.CleanCheck` | internal/service/notification.go:233-250 | a check without failures records every crossed threshold and mails the nearest exactly when it was not on record |
| `Notifications.CheckExactly` | internal/service/notification.go:233-250 | whichever calls of a check fail: the nearest threshold is mailed exactly when every claim was made, it was new and the send went through, is on record unmailed exactly when send and release both failed, and the farther ones are recorded up to the claim that failed |
| `Notifications.LaterMailNotSmallerIff` | internal/service/notification.go:233-250 | for any changed thresholds and any log, a clean check mails something not smaller than a threshold on record exactly when the nearest crossed one exceeds it and is not on record |
| `Notifications.NewThresholdReorders` | internal/service/notification.go:236-240 | it does happen when a larger threshold replaces the others |
| `Notifications.NotificationService.SendWarning` | internal/service/notification.go:233-250 | the log and the mail after a check, wherever it fails |
| `Notifications.NotificationService.Deliver` | internal/service/notification.go:205-231 | claims and sends, and gives the claim back when the send failed |
| `Notifications.NotificationService.SendLapse` | internal/service/notification.go:252-261 | the log and the mail after a lapse notice, which a row of this or a later date refuses |
| `Notifications.LapsesIncrease` | internal/service/notification.go:252-261 | the lapse notices mailed concern strictly later days |
| `CrewLinking.LinkFlights` | internal/service/contact.go:75-175 | through any sequence of flights committed and confirmed or rolled back and discarded, with contacts added by others in between, every cached name maps to the contact of its row in the committed store, the created count is exact, and each committed crew is that of an uncached linker exactly when no member offends |
| `CrewLinking.OneAgreesIff` | internal/service/contact.go:128-173 | a member is treated as by an uncached linker exactly unless it is to be resolved, its lower-cased name is remembered, and it is too long or has a row of its own |
| `CrewLinking.CrewAgreesIff` | internal/service/contact.go:128-175 | so is a whole crew, exactly when no member offends, and then the contacts are the same too |
| `CrewLinking.QuietRunIsPlain` | internal/service/contact.go:75-175 | while no committed flight has an offending member, the committed contacts are those an uncached linker would have left |
| `CrewLinking.TwinOffends` | internal/service/contact.go:94-99 | it does happen: of two names with one lower-cased form, the second too long or with a row of its own, the second is linked to the first one's contact |
| `CrewLinking.AlwaysAgreesIff` | internal/service/contact.go:148-172 | the linker agrees with an uncached one on every crew exactly when the lower-cased name decides the row and whether the name is too long |
| `CrewLinking.LinkedMeansHeld` | internal/service/contact.go:94-99 | a linked member names a contact the store holds; it stays unlinked exactly for a blank name, or one too long with no id of the user's own and no remembered key |
| `CrewLinking.LinkedIff` | internal/service/contact.go:128-173 | what linking means: the name is trimmed, a contact of the user's own stays, otherwise a name that is neither blank nor too long is linked to the contact with its row, created exactly when there was none; nothing else changes |
| `CrewLinking.OneContactIff` | internal/service/contact.go:128-173 | two names are linked to one contact exactly when the database takes them for one row |
| `CrewLinking.CrewLinker.LinkIn` | internal/service/contact.go:106-175 | links in place as the remembering linker does, up to the first failing call |
| `CrewLinking.CrewLinker.LinkMember` | internal/service/contact.go:128-173 | one member: pending, then cache, then repository |
| `CrewLinking.CrewLinker.Confirm` | internal/service/contact.go:113-120 | keeps what was resolved and counts what was created |
| `CrewLinking.CrewLinker.Discard` | internal/service/contact.go:122-126 | drops it |
| `CrewLinking.Link` | internal/service/contact.go:94-104 | outside a transaction the cache still agrees with the store, even after a failure part of the way |
| `CrewLinking.Contacts.FindOrCreateByName` | internal/repository/postgres/contact.go:74-109 | the contact under the key, created when there is none |
| `VCard.UnescapeEscape` | internal/service/contact_vcard.go:83-94 | unescaping gives every value back with its newlines normalised |
| `VCard.EscapedHasNoNewline` | internal/service/contact_vcard.go:83-94 | an escaped value holds no line break |
| `VCard.ListRoundTrip` | internal/service/contact_vcard.go:68-75 | a list joined with a separator splits back into its values |
| `VCard.RolesRoundTrip` | internal/service/contact_vcard.go:68-75 | the CATEGORIES list comes back intact |
| `VCard.NameRoundTrip` | internal/service/contact_vcard.go:54-57 | the structured name comes back as its five components |
| `VCard.ValueRoundTrip` | internal/service/contact_vcard.go:43-49 | each property reads back as its value |
| `VCard.WriteLine` | internal/service/contact_vcard.go:96-111 | writes the line in pieces |
| `VCard.UnfoldFold` | internal/service/contact_vcard.go:96-111 | unfolding a written line gives the line back |
| `VCard.StreamRoundTrip` | internal/service/contact_vcard.go:96-111 | unfolding a stream of written lines gives the lines back |
| `VCard.EncodedIsValid` | internal/service/contact_vcard.go:96-113 | every text encoded as section 3 of RFC 3629 says is made of the sequences that the folding reckons with |
| `VCard.PiecesAreValid` | internal/service/contact_vcard.go:96-108 | no fold splits a UTF-8 sequence: every piece of valid text is valid |
| `VCard.PiecesFit` | internal/service/contact_vcard.go:96-108 | no piece is longer than 75 octets, so no physical line is longer than 76 |
| `VCard.WithinLimitIff` | internal/service/contact_vcard.go:12-15 | for single-byte text the 75-octet limit itself is kept exactly up to 149 octets |
| `VCard.WithinLimitExactly` | internal/service/contact_vcard.go:96-111 | for a line of any kind the limit is kept exactly when at the start of every continuation line fewer than 75 octets are left, or more than 75 and the cut falls inside a sequence |
| `VCard.WithinLimitUtf8` | internal/service/contact_vcard.go:96-108 | valid text of any kind keeps it up to 146 octets, and at 147 exactly unless it was cut in front of a four-byte sequence at 72 |
| `VCard.ExportVCard` | internal/service/contact_vcard.go:18-41 | the export is the content lines of all cards, folded |
| `VCard.ExportRoundTrip` | internal/service/contact_vcard.go:18-81 | unfolding the export gives back the content lines of all cards, in order |
| `VCard.CardReadsBack` | internal/service/contact_vcard.go:43-82 | a card read property by property gives the contact: the display name, the five-part name, email, phone and notes each under its own property, the roles, the id and the time; what is empty is absent |

## Left out

- HTTP handlers, middleware, wiring, metrics, SMTP, templates: they only carry the modelled calls.
- Hashing, bcrypt, JWT, TOTP, AEAD, OIDC and WebAuthn: library wrappers; the validation of the JWT that a refresh token is wrapped in is not part of `Sessions`.
- Row locks and transaction isolation: each repository call is one atomic step. Clearing an account's tokens takes no user row lock (internal/repository/postgres/refresh_token.go:202-210), so its atomicity is an assumption.
- Failed claim, completion or release calls on the idempotency store: a call either takes effect or the request is gone.
- Wrap-around of Go integers and NaN coordinates: sizes and coordinates are unbounded integers and reals.
- Haversine, trigonometry and pkg/solar: real analysis; only the bounds named under Assumptions are used.
- The table of searchable fields (internal/flightsearch/fields.go): data; the theorems hold for every table of the assumed shape.
- Unicode normalisation and short name keys (internal/airports/name.go): function parameters.
- The licence table that decides which windows apply (internal/service/logbookrules/rules.go:70-143): data; the required windows are a parameter.
- Block times to instants, automatic calculations (internal/service/flightcalc): function parameters.
- JSON decoding of snapshots, undecodable revisions, error message texts: the decoded values are modelled.
- Aircraft and contact renames on signed flights: decided in database triggers, not part of the lock machine.
- Daily mail quota of signature requests: a yes-or-no input of the calls that check it.
- Strict-mode rejection inside a flight update: an accepted-or-not input of the update step in `Signatures`; the verdict itself is in `Logbook`.
- Contact deletion or renaming by others while a crew linker is in use: the source's cache does not notice either.
- Concurrent checks for one user's notifications: checks run one after another, as the scheduler runs them.
- Splitting a name into family and given name, trimming, ids and times of a vCard: inputs of the card.
- Registration and duration helpers, field validation, baseline sums, admin roles: no state and no interplay with the parts modelled here.
- Sessions.SessionCap: counts logins between evicting and creating; it does not bound sessions when evictions fail, because the source lets the login through.
- Signatures.LocksStaySound: excludes a void that stops between its two writes and mail bookkeeping with a stale row, because the property fails there, as stated by the two if-and-only-if lemmas.
- SearchErrors.ErrorsAreTrue: says nothing of the two budget errors beyond their name; the counters behind them are in `SearchParser.OrAccounts`.
