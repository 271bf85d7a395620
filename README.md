# kojan-map (こじゃんとやまっぷ) in Dafny

This project models the core of kojan-map, a map-based posting service for
Kochi prefecture, and proves properties of that model. Users sign in with
Google, drop pins with posts and photos on the map, react to posts, report
them and block other users. Shops and businesses can register as business
members, publish posts, view statistics about them and sign in with a
one-time e-mail code. Administrators review reports, business applications,
users and posts.

The model has one Dafny module for each core source file or component:

- **Shared modules.** Option/Result/Outcome wrappers; the string helpers the
  code relies on (`strings.TrimSpace`, JavaScript `trim`, `strconv.Atoi`,
  `String(n)`, UTF-16 length, 32-bit truncation); and list helpers (filter,
  count, sort by key, window).
- **Business backend** (`backend/business`). The repositories and the mock
  repositories behave as stores over sequences and maps. On top of them sit
  the post, member, block/report and statistics services. Also modelled: the
  MFA code store, the session store, the token blacklist, the auth handler,
  the auth middleware, error handling and CORS, and the defaults of the
  configuration.
- **Admin backend** (`backend/admin`). The report, user, business-application
  and post services, together with the repositories they use.
- **User backend** (`backend/user`). The user-table store; the post, account,
  business, block/report/contact services; the post handler; and the auth
  handler.
- **Frontend** (`frontend/src`):
  - the shared types and genre tables;
  - the auth helpers and the sidebar's filters;
  - the admin dashboard's handlers and the admin report list;
  - the business dashboard's figures and the main application shell's
    handlers;
  - the new-post dialog, the business-application form and the report form;
  - the reaction button and the map's pin placement.
- **`read_report_json.py`**. It reads a test report that may be written in
  UTF-16 or UTF-8, takes the span from the first `{` to the last `}`, and
  summarises the failing results it finds.

A component whose fields change in place becomes a `class`. Each of its
methods ensures that its result and its new state equal a specification
function applied to the old state; the lemmas about those functions state the
invariants the operations keep. Pure code becomes functions and lemmas. Some
things are not modelled directly and are passed in as parameters instead:
the clock, random draws, UUIDs, the database's error texts, JSON parsing and
rendering, time parsing, JWT and Google token verification, MIME sniffing,
base64 and Unicode case mapping.

## Model

| member | source | states |
|---|---|---|
| Mfa.Generate | backend/business/pkg/mfa/validator.go:33-56 | an empty e-mail or a failed random draw is an error and leaves the store as it was; otherwise the code is six digits, zero-padded, of value the number drawn, and it replaces any entry for the e-mail with expiry now + 600 s, 0 attempts and a limit of 5 |
| Mfa.Verify | backend/business/pkg/mfa/validator.go:59-91 | missing input or no entry is rejected without touching the store; no other e-mail's entry ever changes; success holds exactly for a live, unlocked entry whose code matches, and removes the entry |
| Mfa.Sweep | backend/business/pkg/mfa/validator.go:93-101 | a key remains exactly when its entry is not expired at `now`, and each remaining entry is unchanged |
| Mfa.ExpiredIsDeleted | backend/business/pkg/mfa/validator.go:69-73 | an expired entry fails with "MFA code expired" and is deleted |
| Mfa.LockoutRemovesEntry | backend/business/pkg/mfa/validator.go:75-79 | at the attempt limit even the right code fails with "max MFA attempts exceeded" and the entry is removed |
| Mfa.WrongCodeCountsAttempt | backend/business/pkg/mfa/validator.go:81-90 | a wrong code reaching the comparison fails as invalid and keeps the entry with one more attempt |
| Mfa.SingleUse | backend/business/pkg/mfa/validator.go:84-88 | after a success the same code finds no entry |
| Mfa.FreshCodeVerifies | backend/business/pkg/mfa/validator.go:38-51 | a freshly generated code verifies at any time within its ten minutes |
| Mfa.FiveWrongGuessesLock | backend/business/pkg/mfa/validator.go:50 | five wrong guesses on a fresh code make the right code fail with "max MFA attempts exceeded" |
| Mfa.SweepIsUnobservable | backend/business/pkg/mfa/validator.go:93-101 | sweeping first never changes whether a verification at the same time succeeds, nor what a later sweep leaves |
| Mfa.SweepIdempotent | backend/business/pkg/mfa/validator.go:93-101 | sweeping twice at one time equals sweeping once |
| Mfa.MfaValidator.constructor | backend/business/pkg/mfa/validator.go:26-30 | the store starts empty |
| Mfa.MfaValidator.GenerateCode | backend/business/pkg/mfa/validator.go:33-56 | result and new store are those of `Generate` |
| Mfa.MfaValidator.VerifyCode | backend/business/pkg/mfa/validator.go:59-91 | verdict and new store are those of `Verify` |
| Mfa.MfaValidator.CleanupExpiredCodes | backend/business/pkg/mfa/validator.go:93-101 | the loop's deletions leave exactly `Sweep` of the old store |
| Session.Lookup | backend/business/pkg/session/session.go:57-71 | an unknown id fails as not found; success holds exactly for a stored session not yet expired, and returns the stored record; an expired one fails as expired and is not removed |
| Session.Validate | backend/business/pkg/session/session.go:81-92 | succeeds exactly when the lookup succeeds and the stored code equals the one supplied; a failed lookup's error is passed on |
| Session.Sweep | backend/business/pkg/session/session.go:99-105 | keeps exactly the sessions with now not after their expiry, unchanged |
| Session.CreatedSessionFound | backend/business/pkg/session/session.go:43-71 | a created session reads back with exactly the stored fields until now + ttl, and as expired after |
| Session.SweepUnobservable | backend/business/pkg/session/session.go:95-110 | a sweep never changes whether `GetSession` succeeds at the sweep time or later |
| Session.SessionStore.constructor | backend/business/pkg/session/session.go:29-40 | the table starts empty |
| Session.SessionStore.CreateSession | backend/business/pkg/session/session.go:43-54 | the record is stored under its id with expiry now + ttl, replacing any earlier one, and nothing else changes |
| Session.SessionStore.GetSession | backend/business/pkg/session/session.go:57-71 | answers as `Lookup` on the table |
| Session.SessionStore.DeleteSession | backend/business/pkg/session/session.go:74-78 | removes only that id; an absent id changes nothing |
| Session.SessionStore.ValidateMfaCode | backend/business/pkg/session/session.go:81-92 | answers as `Validate` on the table, which it only reads |
| Session.SessionStore.SweepExpired | backend/business/pkg/session/session.go:99-105 | the loop leaves exactly `Sweep` of the old table |
| Blacklist.Revoked | backend/business/pkg/jwt/blacklist.go:39-51 | a token never revoked reads as not revoked; a token reads as revoked exactly when its stored expiry is strictly after now |
| Blacklist.Sweep | backend/business/pkg/jwt/blacklist.go:58-65 | drops exactly the tokens whose expiry is before now, so one expiring at now stays; the rest are unchanged |
| Blacklist.RevokeIsLocal | backend/business/pkg/jwt/blacklist.go:32-36 | revoking one token leaves every other token's status as it was |
| Blacklist.RevokedUntilExpiry | backend/business/pkg/jwt/blacklist.go:32-51 | a revoked token reads as revoked exactly until its expiry |
| Blacklist.SweepUnobservable | backend/business/pkg/jwt/blacklist.go:54-72 | a sweep never changes an `IsRevoked` answer at the sweep time or later |
| Blacklist.TokenBlacklist.constructor | backend/business/pkg/jwt/blacklist.go:17-28 | the table starts empty |
| Blacklist.TokenBlacklist.RevokeToken | backend/business/pkg/jwt/blacklist.go:32-36 | records the token with its expiry, replacing an earlier expiry, and nothing else |
| Blacklist.TokenBlacklist.IsRevoked | backend/business/pkg/jwt/blacklist.go:39-51 | answers as `Revoked` on the table |
| Blacklist.TokenBlacklist.SweepExpired | backend/business/pkg/jwt/blacklist.go:58-65 | the loop leaves exactly `Sweep` of the old table |
| Image.ValidateMimeType | backend/business/pkg/validate/image.go:18-34 | fewer than four bytes is "too small"; otherwise it passes exactly for the eight-byte PNG signature or the JPEG marker FF D8 FF, and fails as "not PNG or JPEG" otherwise |
| Image.ValidateImageSize | backend/business/pkg/validate/image.go:38-43 | fails exactly when the size exceeds the maximum, carrying both numbers; a size equal to the maximum passes |
| Image.ValidateImage | backend/business/pkg/validate/image.go:46-54 | passes exactly when both checks pass; a format failure is reported before any size failure |
| Image.ShortJpegRefused | backend/business/pkg/validate/image.go:19-31 | three bytes FF D8 FF are refused as too small although they carry the JPEG marker; four bytes pass |
| ApiErrors.StatusCode | backend/business/pkg/errors/errors.go:60-75 | 401, 404, 409, 400 and 502 for exactly their groups of codes, and every status is one of those or 500 |
| ApiErrors.DefaultStatus | backend/business/pkg/errors/errors.go:72-73 | the internal-server code and the forbidden code, which errors.go does not declare, fall through to 500 |
| ApiErrors.NewApiError | backend/business/pkg/errors/errors.go:51-57 | keeps the code and message and sets the status `getStatusCode` gives |
| ApiErrors.Render | backend/business/pkg/errors/errors.go:46-48 | the text is "[", the code, "] " and the message, in that order and nothing else |
| Config.GetEnv | backend/shared/config/config.go:74-79 | a non-empty variable's value, else the default |
| Config.GetAllowedOrigins | backend/shared/config/config.go:46-68 | the rune loop yields exactly the non-empty comma-separated pieces, or the localhost default when the variable is empty |
| Config.OriginsWellFormed | backend/shared/config/config.go:46-68 | the default for an empty variable; no entry is empty or contains a comma |
| Config.OriginsKeepOrder | backend/shared/config/config.go:52-66 | the entries are an order-preserving subsequence of the comma split, and a piece is an entry exactly when it is a non-empty piece, so entries keep their surrounding spaces |
| Config.OriginsJoinBack | backend/shared/config/config.go:52-66 | with no empty piece, joining the entries with commas gives back the variable exactly |
| Config.PiecesCons | backend/shared/config/config.go:55-59 | each comma closes one piece, which is kept only when non-empty |
| MockRepos.GetOrCreate | backend/business/internal/repository/mock/mock_repos.go:31-46 | an existing user comes back unchanged with the map untouched, whatever gmail and role are passed; otherwise the new user is stored under its Google id and returned |
| MockRepos.GetOrCreateIdempotent | backend/business/internal/repository/mock/mock_repos.go:31-46 | a second call with the same Google id changes nothing and returns the first call's user |
| MockRepos.MockAuthRepo.constructor | backend/business/internal/repository/mock/mock_repos.go:22-27 | both maps start empty |
| MockRepos.MockAuthRepo.GetOrCreateUser | backend/business/internal/repository/mock/mock_repos.go:31-46 | result and new user map are those of `GetOrCreate`; the member map is untouched |
| MockRepos.MockAuthRepo.GetUserById | backend/business/internal/repository/mock/mock_repos.go:50-58 | the stored user exactly when the id is present |
| MockRepos.MockAuthRepo.GetUserByGmail | backend/business/internal/repository/mock/mock_repos.go:62-72 | some stored user with that gmail, in map order, and none exactly when no user has it |
| MockRepos.MockAuthRepo.GetBusinessMemberByUserId | backend/business/internal/repository/mock/mock_repos.go:75-83 | the stored member exactly when the user id is present |
| MockRepos.UpdateMember | backend/business/internal/repository/mock/mock_repos.go:115-150 | the keys stay the same, every other member is unchanged, and the present member gets the update |
| MockRepos.MockBusinessMemberRepo.constructor | backend/business/internal/repository/mock/mock_repos.go:93-97 | the member map starts empty |
| MockRepos.MockBusinessMemberRepo.GetByGoogleId | backend/business/internal/repository/mock/mock_repos.go:101-111 | some member whose user id matches, and none exactly when no member has it |
| MockRepos.MockBusinessMemberRepo.UpdateName | backend/business/internal/repository/mock/mock_repos.go:115-124 | only that member's name changes; an absent id changes nothing and is no error |
| MockRepos.MockBusinessMemberRepo.UpdateIcon | backend/business/internal/repository/mock/mock_repos.go:128-137 | only that member's image changes |
| MockRepos.MockBusinessMemberRepo.Anonymize | backend/business/internal/repository/mock/mock_repos.go:141-150 | only that member's name becomes "[Anonymized]" |
| MockRepos.MockAnonymizeKeepsPersonalData | backend/business/internal/repository/mock/mock_repos.go:141-150 | the mock keeps kana name, address, phone and image of an anonymized member |
| MockRepos.IncrementView | backend/business/internal/repository/mock/mock_repos.go:196-205 | the keys stay the same, one more view on that post only |
| MockRepos.AnonymizePost | backend/business/internal/repository/mock/mock_repos.go:238-248 | title and description of that post only become "[Anonymized]" |
| MockRepos.MockPostRepo.constructor | backend/business/internal/repository/mock/mock_repos.go:161-166 | no posts and the counter at 1 |
| MockRepos.MockPostRepo.ListByBusiness | backend/business/internal/repository/mock/mock_repos.go:171-180 | every stored post once, whatever the business id |
| MockRepos.MockPostRepo.GetById | backend/business/internal/repository/mock/mock_repos.go:184-192 | the stored post exactly when the id is present |
| MockRepos.MockPostRepo.IncrementViewCount | backend/business/internal/repository/mock/mock_repos.go:196-205 | the posts become `IncrementView` of the old ones; the counter is untouched |
| MockRepos.MockPostRepo.Create | backend/business/internal/repository/mock/mock_repos.go:209-228 | returns the counter and advances it by one, storing the new post with zero views and reactions under that id |
| MockRepos.MockPostRepo.Anonymize | backend/business/internal/repository/mock/mock_repos.go:238-248 | the posts become `AnonymizePost` of the old ones |
| MockRepos.CreateIdsIncrease | backend/business/internal/repository/mock/mock_repos.go:209-228 | the next id is unused, and after a create every post is still keyed by its own id below the counter |
| MockRepos.BlockKeysCollide | backend/business/internal/repository/mock/mock_repos.go:307 | the key `blocker:blocked` is not injective: ("a:b", "c") and ("a", "b:c") share an entry |
| MockRepos.MockBlockRepo.constructor | backend/business/internal/repository/mock/mock_repos.go:297-301 | no blocks |
| MockRepos.MockBlockRepo.Create | backend/business/internal/repository/mock/mock_repos.go:304-309 | sets the pair's key, nothing else |
| MockRepos.MockBlockRepo.Delete | backend/business/internal/repository/mock/mock_repos.go:312-317 | removes the pair's key, nothing else |
| MockRepos.BlockThenUnblock | backend/business/internal/repository/mock/mock_repos.go:304-317 | block then unblock leaves no entry for the pair and the others as they were |
| MockRepos.MockReportRepo.constructor | backend/business/internal/repository/mock/mock_repos.go:327-331 | no reports |
| MockRepos.MockReportRepo.Create | backend/business/internal/repository/mock/mock_repos.go:334-339 | appends the payload |
| MockRepos.ContactEntry | backend/business/internal/repository/mock/mock_repos.go:360-364 | exactly the keys googleId, subject and message, holding the three arguments |
| MockRepos.MockContactRepo.constructor | backend/business/internal/repository/mock/mock_repos.go:349-353 | no contacts |
| MockRepos.MockContactRepo.Create | backend/business/internal/repository/mock/mock_repos.go:357-366 | appends the entry |
| BizRepos.MemberByGoogleId | backend/business/internal/repository/impl/business_member_repo.go:23-32 | found exactly when some member has that user id, and then a member of the table with it |
| BizRepos.UpdateNameSpec | backend/business/internal/repository/impl/business_member_repo.go:36-54 | an empty name or one over 50 UTF-8 bytes is refused with the table untouched; otherwise success holds exactly when the id exists, only rows with that id get the name, and a missing id is "not found" with no change |
| BizRepos.UpdateIconSpec | backend/business/internal/repository/impl/business_member_repo.go:58-76 | empty data is refused with the table untouched; otherwise success holds exactly when the id exists and only those rows get the image |
| BizRepos.AnonymizeMemberSpec | backend/business/internal/repository/impl/business_member_repo.go:80-102 | success exactly when the id exists; only the rows with that id are anonymized; a missing id is "not found" with no change |
| BizRepos.AnonymizeKeepsKeys | backend/business/internal/repository/impl/business_member_repo.go:85-93 | every row keeps id, user id, place and registration date; an anonymized row has name, kana name and address "[Anonymized]", phone 0, no image and the anonymization time set |
| BizRepos.MemberTable.constructor | backend/business/internal/repository/impl/business_member_repo.go:18-20 | the table holds the rows given |
| BizRepos.MemberTable.GetByGoogleId | backend/business/internal/repository/impl/business_member_repo.go:23-32 | answers as `MemberByGoogleId` |
| BizRepos.MemberTable.UpdateName | backend/business/internal/repository/impl/business_member_repo.go:36-54 | result and new rows are those of `UpdateNameSpec` |
| BizRepos.MemberTable.UpdateIcon | backend/business/internal/repository/impl/business_member_repo.go:58-76 | result and new rows are those of `UpdateIconSpec` |
| BizRepos.MemberTable.Anonymize | backend/business/internal/repository/impl/business_member_repo.go:80-102 | result and new rows are those of `AnonymizeMemberSpec` |
| BizRepos.PostById | backend/business/internal/repository/impl/post_repo.go:37-46 | found exactly when a post has the id; otherwise "not found" with the id |
| BizRepos.CreatePostSpec | backend/business/internal/repository/impl/post_repo.go:68-101 | a payload of the wrong type and an unknown business are refused with nothing changed; otherwise the post is appended under the business's user id with zero views and reactions and the first genre, taking the next id, which is returned |
| BizRepos.IncrementViewSpec | backend/business/internal/repository/impl/post_repo.go:49-64 | success exactly when the post exists; one more view on that post only; otherwise "not found" with no change |
| BizRepos.SetGenresSpec | backend/business/internal/repository/impl/post_repo.go:105-123 | an empty list succeeds without touching the table; otherwise success exactly when the post exists, and its genre becomes the first one given |
| BizRepos.AnonymizePostSpec | backend/business/internal/repository/impl/post_repo.go:127-144 | success exactly when the post exists; its title and text become "[Anonymized]"; otherwise "not found" with no change |
| BizRepos.HistoryCorrect | backend/business/internal/repository/impl/post_repo.go:147-156 | the history holds exactly the user's posts, each as often as stored, newest first |
| BizRepos.ListByBusiness | backend/business/internal/repository/impl/post_repo.go:25-34 | the history of the user behind the business id; an unknown business id has no posts |
| BizRepos.CreateKeepsIdsUnique | backend/business/internal/repository/impl/post_repo.go:68-101 | when every id is below the next auto-increment id, that stays so after a create |
| BizRepos.PostTable.constructor | backend/business/internal/repository/impl/post_repo.go:20-22 | the table holds the rows and counter given |
| BizRepos.PostTable.GetById | backend/business/internal/repository/impl/post_repo.go:37-46 | answers as `PostById` |
| BizRepos.PostTable.Create | backend/business/internal/repository/impl/post_repo.go:68-101 | result, rows and counter are those of `CreatePostSpec` |
| BizRepos.PostTable.IncrementViewCount | backend/business/internal/repository/impl/post_repo.go:49-64 | result and rows are those of `IncrementViewSpec`; the counter is untouched |
| BizRepos.PostTable.SetGenres | backend/business/internal/repository/impl/post_repo.go:105-123 | result and rows are those of `SetGenresSpec` |
| BizRepos.PostTable.Anonymize | backend/business/internal/repository/impl/post_repo.go:127-144 | result and rows are those of `AnonymizePostSpec` |
| BizReportRepo.CheckRequest | backend/business/internal/repository/impl/report_repo.go:26-40 | a payload of another type, then a missing reporter or reported id, then an unparsable time are refused, in that order, with their messages (the wrapped parse error's text is left out); otherwise the parsed time |
| BizReportRepo.CreateAsWritten | backend/business/internal/repository/impl/report_repo.go:26-68 | a refused request leaves the table as it was; the duplicate test compares the stored column with the full 64-bit post id |
| BizReportRepo.CreateReport | backend/business/internal/repository/impl/report_repo.go:26-68 | corrected (first Findings row): a refused request or an existing (reporter, post) pair leaves the table as it was, the latter with "duplicate report already exists"; an accepted request whose pair is new passes; success appends one unhandled report storing `int32(TargetPostID)` and the parsed time |
| BizReportRepo.AsWrittenAgreesInRange | backend/business/internal/repository/impl/report_repo.go:45-56 | for post ids that fit in 32 bits the code as written and the corrected test agree |
| BizReportRepo.CreateKeepsPairsUnique | backend/business/internal/repository/impl/report_repo.go:25-56 | with the corrected test no two reports share a (reporter, post) pair after a create |
| BizReportRepo.AsWrittenStoresDuplicates | backend/business/internal/repository/impl/report_repo.go:45-56 | as written, reporting post 2^32 + 5 twice stores two rows for post 5 |
| BizReportRepo.ReportTable.constructor | backend/business/internal/repository/impl/report_repo.go:20-22 | the table holds the rows given |
| BizReportRepo.ReportTable.Create | backend/business/internal/repository/impl/report_repo.go:26-68 | result and new rows are those of the corrected `CreateReport` |
| BizPostService.List | backend/business/internal/service/impl/post_service.go:27-38 | a non-positive business id is refused; otherwise the repository's list, or its error wrapped as OPERATION_FAILED |
| BizPostService.Get | backend/business/internal/service/impl/post_service.go:41-60 | a non-positive id is refused with nothing changed; otherwise the view is counted first, whatever that returns, and the post is read from the state the increment left, a read error becoming NOT_FOUND |
| BizPostService.Create | backend/business/internal/service/impl/post_service.go:64-83 | a non-positive business id, then a payload of another type, are refused with nothing changed; otherwise the repository's id and state, its error wrapped as OPERATION_FAILED |
| BizPostService.SetGenres | backend/business/internal/service/impl/post_service.go:86-101 | the id is checked before the list, and either failure leaves the repository untouched; otherwise the repository's outcome |
| BizPostService.Anonymize | backend/business/internal/service/impl/post_service.go:104-132 | the repository runs only when every check passes; the failures are, in order, a bad id, no business in the context (UNAUTHORIZED), a failed read (NOT_FOUND), no post, and an author id that does not parse to the caller's business id (FORBIDDEN) |
| BizPostService.History | backend/business/internal/service/impl/post_service.go:135-146 | an empty Google id is INVALID_INPUT; otherwise the repository's history, its error wrapped as OPERATION_FAILED |
| BizPostService.MockGetCountsView | backend/business/internal/service/impl/post_service.go:41-60 | over the in-memory repository a stored post comes back with its view already counted |
| BizPostService.MockGetAbsentIsNotAnError | backend/business/internal/service/impl/post_service.go:50-59 | over the in-memory repository an absent post is no error: nothing comes back and nothing changes |
| BizPostService.MockCreatedPostNotAnonymizable | backend/business/internal/service/impl/post_service.go:116-128 | over the in-memory repository, which stores no author id, a business can never anonymize the post it has just created |
| BizMemberService.IconUrl | backend/business/internal/service/impl/member_service.go:59-68 | a data URL of the sniffed type and the base64 text exactly for a non-empty PNG or JPEG image, and the empty string otherwise |
| BizMemberService.GetBusinessDetails | backend/business/internal/service/impl/member_service.go:34-77 | an empty id is INVALID_INPUT; a failed member lookup is NOT_FOUND with its error; a failed user lookup is "user not found"; success holds exactly when both lookups find a record, and carries the member's id, name, registration time, the user's gmail and the icon URL |
| BizMemberService.OwnerCheck | backend/business/internal/service/impl/member_service.go:87-94 | passes exactly when the context holds the target business id; no id is UNAUTHORIZED, another id FORBIDDEN |
| BizMemberService.UpdateBusinessName | backend/business/internal/service/impl/member_service.go:81-102 | a blank name or one over 50 code points, then the ownership check, refuse the call with the repository untouched; otherwise the repository's outcome, its error wrapped as OPERATION_FAILED |
| BizMemberService.UpdateBusinessIcon | backend/business/internal/service/impl/member_service.go:106-136 | empty, then over 5 MiB, then ownership, then a sniffed type other than PNG or JPEG refuse the call with the repository untouched; only a call passing all of them reaches the repository |
| BizMemberService.AnonymizeMember | backend/business/internal/service/impl/member_service.go:140-159 | no business id is UNAUTHORIZED; neither the owner nor an admin role is FORBIDDEN; otherwise the repository's outcome |
| BizMemberService.NameLimitsDisagree | backend/business/internal/service/impl/member_service.go:82 | a name of 17 to 50 three-byte characters passes the service's code-point limit but not the table's 50-byte limit, so the owner gets OPERATION_FAILED and the table is unchanged |
| BizBlockReportService.Block | backend/business/internal/service/impl/block_report_service.go:25-40 | a missing id, then blocking oneself, refuse the call with the repository untouched; otherwise the repository's outcome, its error wrapped as OPERATION_FAILED |
| BizBlockReportService.Unblock | backend/business/internal/service/impl/block_report_service.go:43-54 | a missing id is refused with the repository untouched; there is no self check; otherwise the repository's outcome |
| BizBlockReportService.CreateReport | backend/business/internal/service/impl/block_report_service.go:70-81 | only an empty reporter id is refused here; otherwise the payload goes to the repository as it came |
| BizBlockReportService.MockBlockThenUnblock | backend/business/internal/service/impl/block_report_service.go:25-54 | over the in-memory repository, block then unblock both succeed and leave no entry for the pair |
| BizBlockReportService.SecondReportRefused | backend/business/internal/service/impl/block_report_service.go:70-81 | over the report table, a second identical report is OPERATION_FAILED with the duplicate message and the table keeps the one new row |
| BizStatsService.Total | backend/business/internal/service/impl/stats_service.go:26-76 | a non-positive business id is INVALID_INPUT; otherwise the repository's count unchanged with its label, or its error wrapped as OPERATION_FAILED |
| BizStatsService.GetTotalPosts | backend/business/internal/service/impl/stats_service.go:26-40 | on success the count is the repository's and the label is "Total Posts" |
| BizStatsService.GetTotalReactions | backend/business/internal/service/impl/stats_service.go:44-58 | on success the count is the repository's and the label is "Total Reactions" |
| BizStatsService.GetTotalViews | backend/business/internal/service/impl/stats_service.go:62-76 | on success the count is the repository's and the label is "Total Views" |
| BizStatsService.EngagementRate | backend/business/internal/service/impl/stats_service.go:90-95 | no posts gives 0; otherwise the rate times posts × 100 is reactions plus views |
| BizStatsService.EngagementRateMonotone | backend/business/internal/service/impl/stats_service.go:94 | with non-negative counts the rate is non-negative and every extra reaction raises it |
| BizStatsService.GetEngagementRate | backend/business/internal/service/impl/stats_service.go:80-103 | a non-positive id is refused; otherwise the three counts are echoed with the rate, or the repository's error is wrapped as OPERATION_FAILED |
| BizAuthHandler.ExtractTokenFromHeader | backend/business/internal/api/handler/auth_handler.go:64-81 | an empty header is "required"; a header not of the form "Bearer " plus a non-empty rest is rejected; an accepted token is everything after "Bearer " |
| BizAuthHandler.TokenKeepsSpaces | backend/business/internal/api/handler/auth_handler.go:70-75 | the header is split at the first space only, so "Bearer " followed by any non-empty token, spaces included, yields that token whole |
| BizAuthHandler.Logout | backend/business/internal/api/handler/auth_handler.go:86-102 | the logout service is called exactly when the header yields a token, and with that token; otherwise the reply is 401 |
| BizAuthMiddleware.BearerToken | backend/business/internal/api/middleware/auth.go:17-37 | an empty header is missing; a token is returned exactly when the header starts with "Bearer " and has more after it, and it is that rest |
| BizAuthMiddleware.ParsersAgree | backend/business/internal/api/middleware/auth.go:17-37 | the middleware's prefix check and the handler's split give the same token or the same error for every header |
| BizAuthMiddleware.Authenticate | backend/business/internal/api/middleware/auth.go:14-64 | the request passes exactly when the header parses, the token verifies and is not revoked; the context then gains the claims' user id, gmail and role; header errors are reported as such |
| BizAuthMiddleware.OptionalAuthenticate | backend/business/internal/api/middleware/auth.go:68-115 | any failure leaves the context unchanged; success fills it in exactly as the required middleware does |
| Middleware.ErrorResponse | backend/business/internal/middleware/middleware.go:13-36 | no error recorded means no reply; otherwise the last error decides: an API error is replied to with its own status, code and message, any other error with 500 INTERNAL_SERVER_ERROR |
| Middleware.OnlyLastErrorReported | backend/business/internal/middleware/middleware.go:19-20 | errors recorded before the last one never change the reply |
| Middleware.ApiErrorKeepsStatus | backend/business/internal/middleware/middleware.go:31-34 | an error made by NewAPIError is replied to with the status its code maps to, its code and its message |
| Middleware.Contains | backend/business/internal/middleware/middleware.go:67-74 | the loop finds the string exactly when some list item, trimmed of white space, equals it |
| Middleware.OriginList | backend/business/internal/middleware/middleware.go:42-45 | the list is never empty: ALLOWED_ORIGINS when set, the two localhost origins otherwise |
| Middleware.Cors | backend/business/internal/middleware/middleware.go:39-64 | the origin is echoed, with credentials, exactly when it is non-empty and some trimmed list item equals it; the fixed headers and methods are always set; OPTIONS and only OPTIONS is aborted with 204 |
| Middleware.PreflightAlwaysAnswered | backend/business/internal/middleware/middleware.go:57-60 | a preflight gets 204 whatever its origin |
| Middleware.PaddedOriginRefused | backend/business/internal/middleware/middleware.go:67-74 | an origin with white space at either end is never allowed, since only list items are trimmed |
| Middleware.SpacedItemMatches | backend/business/internal/middleware/middleware.go:50-53 | an origin written with spaces around it in the list still matches |
| AdminReports.ClampPage | backend/admin/service/admin_report_service.go:31-33 | the page used is at least 1: a page below 1 becomes 1, any other is kept |
| AdminReports.ClampPageSize | backend/admin/service/admin_report_service.go:34-36 | the page size used lies in 1..100: one outside becomes 20, any other is kept |
| AdminReports.FindAll | backend/admin/repository/report_repository.go:21-39 | the total counts the rows passing the optional reportFlag filter; the page is the window at offset (page-1)·pageSize of those rows ordered by date descending |
| AdminReports.FindAllPage | backend/admin/repository/report_repository.go:21-39 | a page holds at most pageSize rows, each a stored row passing the filter, newest first, and the total is the number of filtered rows |
| AdminReports.CountUnprocessed | backend/admin/repository/report_repository.go:52-56 | the count of rows with reportFlag false, never more than the table |
| AdminReports.MarkRows | backend/admin/repository/report_repository.go:59-63 | the rows with that id get reportFlag true and every other row is unchanged; no match is no error |
| AdminReports.MarkLowersUnprocessed | backend/admin/repository/report_repository.go:52-63 | with unique ids, handling an unhandled report lowers the unprocessed count by exactly one |
| AdminReports.HandleReport | backend/admin/service/admin_report_service.go:52-64 | an unknown id is "report not found" and a handled one "report is already handled", both changing nothing; otherwise the table is marked |
| AdminReports.HandledOnce | backend/admin/service/admin_report_service.go:52-64 | after a successful handling, handling the same id again fails as already handled and changes nothing |
| AdminReports.ReportRepository.constructor | backend/admin/repository/report_repository.go:16-18 | the repository starts over the given table |
| AdminReports.ReportRepository.FindById | backend/admin/repository/report_repository.go:42-49 | a row is found exactly when some row has the id, and the one returned is a stored row with that id |
| AdminReports.ReportRepository.MarkAsHandled | backend/admin/repository/report_repository.go:59-63 | the table becomes the marked table |
| AdminReports.AdminReportService.constructor | backend/admin/service/admin_report_service.go:25-27 | the service keeps the repository it is given |
| AdminReports.AdminReportService.GetReports | backend/admin/service/admin_report_service.go:30-49 | the response echoes the clamped page and page size with the repository's page and total for them |
| AdminReports.AdminReportService.MarkAsHandled | backend/admin/service/admin_report_service.go:52-64 | the outcome and the new table are those of HandleReport on the old table |
| AdminUsers.FindAll | backend/shared/repository/user_repository.go:20-33 | the total is every row; the page holds at most pageSize rows, the consecutive stored rows from offset (page-1)·pageSize in storage order |
| AdminUsers.FindAllMembers | backend/shared/repository/user_repository.go:20-33 | a page lists stored users only |
| AdminUsers.FindByGoogleId | backend/shared/repository/user_repository.go:36-43 | "record not found" exactly when no row has the id; otherwise a stored row with that id |
| AdminUsers.CountByRole | backend/shared/repository/user_repository.go:53-57 | the number of rows with that role, positive exactly when some row has it |
| AdminUsers.SoftDeleteRows | backend/shared/repository/user_repository.go:60-64 | the rows with that Google id get deletedAt = now; every other row, and the number of rows, is unchanged |
| AdminUsers.SoftDeleteKeepsCounts | backend/shared/repository/user_repository.go:46-64 | soft deletion removes no row and changes no role, so the total and every role count stay the same |
| AdminUsers.DeleteUserOutcome | backend/service/admin_user_service.go:48-65 | an unknown user is "user not found"; deletion succeeds exactly for a found user not yet deleted and not an admin, and then soft-deletes; any failure leaves the table as it was |
| AdminUsers.DeletedBeforeAdmin | backend/service/admin_user_service.go:55-62 | an already deleted user is reported as deleted before the admin check, even when an admin |
| AdminUsers.DeleteUserOnce | backend/service/admin_user_service.go:48-65 | after a successful deletion, deleting the same user again fails as already deleted and changes nothing |
| AdminUsers.UserRepository.constructor | backend/shared/repository/user_repository.go:15-17 | the repository starts over the given table |
| AdminUsers.UserRepository.SoftDelete | backend/shared/repository/user_repository.go:60-64 | the table becomes the soft-deleted table |
| AdminUsers.AdminUserService.constructor | backend/service/admin_user_service.go:22-24 | the service keeps the repository it is given |
| AdminUsers.AdminUserService.GetUsers | backend/service/admin_user_service.go:27-45 | the page is clamped as for reports; the response's users and total are the repository's page for the clamped page and page size |
| AdminUsers.AdminUserService.DeleteUser | backend/service/admin_user_service.go:48-65 | the outcome and new table are those of DeleteUserOutcome on the old table |
| AdminBusiness.FindAll | backend/admin/repository/business_request_repository.go:20-27 | every stored request, each as often as stored, ordered by createdAt descending |
| AdminBusiness.FindAllPaginated | backend/admin/repository/business_request_repository.go:30-50 | the total counts the rows with the given status (none or an empty one is no filter); the page holds at most pageSize of them, stored rows only, newest first |
| AdminBusiness.EmptyStatusIsNoFilter | backend/admin/repository/business_request_repository.go:34-36 | an empty status lists and counts exactly what no status does, and the total is then every row |
| AdminBusiness.FindById | backend/admin/repository/business_request_repository.go:53-60 | not found exactly when no row has the id; otherwise a stored row with that id |
| AdminBusiness.UpdateStatusRows | backend/admin/repository/business_request_repository.go:63-67 | only the rows with that id take the new status; the rest and the number of rows are unchanged |
| AdminBusiness.DeleteRows | backend/admin/repository/business_request_repository.go:70-72 | exactly the rows with another id remain, in their order |
| AdminBusiness.CountPending | backend/admin/repository/business_request_repository.go:75-79 | the number of "pending" rows, positive exactly when one exists |
| AdminBusiness.ResponseOf | backend/admin/service/admin_business_service.go:57-81 | an entry copies id, name, status, address and phone and formats createdAt; applicant name and e-mail are both the user's Gmail, or "" when the user lookup fails |
| AdminBusiness.MemberOf | backend/admin/service/admin_business_service.go:112-120 | the new member takes the request's name (also as kana name), address, phone and user, no place, and the current time |
| AdminBusiness.CheckPending | backend/admin/service/admin_business_service.go:89-96 | an unknown id is "application not found", a decided one "application is already processed"; it passes exactly for a pending request and returns it |
| AdminBusiness.Approve | backend/admin/service/admin_business_service.go:88-128 | a failed guard or unknown applicant changes nothing; otherwise the request becomes "approved" and the member is appended, and a refused insert is reported while the approval stays, since the repositories do not run on the transaction's handle |
| AdminBusiness.Reject | backend/admin/service/admin_business_service.go:131-142 | a failed guard changes nothing; otherwise the request becomes "rejected" and no member is created |
| AdminBusiness.UpdatedNotPending | backend/admin/service/admin_business_service.go:94-96 | once a stored request's status is set to anything but pending, the guard reports it as already processed |
| AdminBusiness.ApprovalIsFinal | backend/admin/service/admin_business_service.go:88-142 | after an approval, even one whose member insert failed, approving or rejecting the same application again is refused and changes nothing |
| AdminBusiness.RejectionIsFinal | backend/admin/service/admin_business_service.go:88-142 | after a rejection, approving or rejecting again is refused and no member is ever created |
| AdminBusiness.DecisionLowersPending | backend/admin/repository/business_request_repository.go:63-79 | with unique ids, deciding a pending application lowers the pending count by exactly one |
| AdminBusiness.BusinessRequestRepository.constructor | backend/admin/repository/business_request_repository.go:15-17 | the repository starts over the given table |
| AdminBusiness.BusinessRequestRepository.UpdateStatus | backend/admin/repository/business_request_repository.go:63-67 | the table becomes the updated table |
| AdminBusiness.BusinessRequestRepository.Delete | backend/admin/repository/business_request_repository.go:70-72 | the table becomes the table without that id |
| AdminBusiness.BusinessMemberRepository.constructor | backend/admin/repository/business_member_repository.go:16-18 | the repository starts over the given table |
| AdminBusiness.BusinessMemberRepository.Create | backend/admin/repository/business_member_repository.go:28-30 | a refused insert is reported and changes nothing; otherwise the member is appended |
| AdminBusiness.AdminBusinessService.constructor | backend/admin/service/admin_business_service.go:35-47 | the service keeps the three repositories it is given |
| AdminBusiness.AdminBusinessService.GetApplications | backend/admin/service/admin_business_service.go:50-85 | one entry per request, in the repository's newest-first order, each built as ResponseOf says |
| AdminBusiness.AdminBusinessService.ApproveApplication | backend/admin/service/admin_business_service.go:88-128 | outcome, request table and member table are those of Approve on the old tables |
| AdminBusiness.AdminBusinessService.RejectApplication | backend/admin/service/admin_business_service.go:131-142 | outcome and request table are those of Reject on the old table |
| AdminPosts.GetPostById | backend/admin/service/admin_post_service.go:55-78 | "post not found" exactly when no post has the id; otherwise the response copies a stored post with that id field by field, its date rendered |
| AdminPosts.DeletePostOutcome | backend/admin/service/admin_post_service.go:88-113 | an unknown post is "post not found"; a failed report delete or post delete is reported with its prefix and rolls both tables back; on success exactly the posts and the reports with another post id remain |
| AdminPosts.DeleteKeepsOtherReports | backend/admin/service/admin_post_service.go:101-104 | the cascade removes exactly the reports on the post: the others stay in order with their multiplicity |
| AdminPosts.Database.constructor | backend/admin/service/admin_post_service.go:43-45 | the database starts with the given post and report tables |
| AdminPosts.Database.DeletePost | backend/admin/service/admin_post_service.go:88-113 | outcome and the two tables are those of DeletePostOutcome on the old tables |
| UserPostService.CountView | backend/user/services/post_service.go:68-70 | numView goes up by one on the rows with that id; every other row, and the number of rows, is unchanged |
| UserPostService.Detail | backend/user/services/post_service.go:62-109 | a missing post is "post not found" and touches no table; otherwise the view is counted before the later lookups; the answer is a success exactly when the post, a live user with its user id, its genre and its place are all found |
| UserPostService.DetailCopiesPost | backend/user/services/post_service.go:62-109 | a success reports the stored post's title, text and reactions with the incremented view count, the genre name of the first genre row with its genre id and the coordinates of the first place row with its place id |
| UserPostService.ViewCountedEvenOnFailure | backend/user/services/post_service.go:68-80 | a found post's view count goes up by one even when a later user, genre or place lookup fails |
| UserPostService.Store | backend/user/services/post_service.go:112-120 | an empty title or text is "title and text are required" and stores nothing; otherwise the post is appended as given |
| UserPostService.GetPinSize | backend/user/services/post_service.go:134-146 | 1.3 exactly when the place has at least 50 posts, and 1.0 exactly when it has fewer |
| UserPostService.PinSizeMonotone | backend/user/services/post_service.go:134-146 | one more post at a place never shrinks its pin |
| UserPostService.AdjustReactions | backend/user/services/post_service.go:165-180 | numReaction moves by the given amount on the rows with that id only |
| UserPostService.Toggle | backend/user/services/post_service.go:149-183 | an empty user is "userID is required" and changes nothing; an existing (user, post) reaction is removed and the count goes down by one; otherwise the reaction is appended and the count goes up by one; users and sessions never change |
| UserPostService.AddReactionKeepsCounts | backend/user/services/post_service.go:155-182 | when every post's numReaction equals its number of reaction rows, that still holds after the toggle |
| UserPostService.RemoveLeavesNone | backend/user/services/post_service.go:158-164 | with unique pairs, deleting the row found for a (user, post) pair leaves none for it |
| UserPostService.IsUserReacted | backend/user/services/post_service.go:245-253 | true exactly when a (user, post) reaction row exists |
| UserPostService.AddReactionFlips | backend/user/services/post_service.go:149-183 | the toggle never creates a duplicate pair, and it flips IsUserReacted |
| UserPostService.AdjustCancels | backend/user/services/post_service.go:165-180 | opposite adjustments of the count cancel |
| UserPostService.ToggleTwiceFromReacted | backend/user/services/post_service.go:149-183 | toggling an existing reaction twice restores the posts and the reaction rows as a multiset |
| UserPostService.ToggleTwiceFromUnreacted | backend/user/services/post_service.go:149-183 | toggling an absent reaction twice restores every table exactly |
| UserPostService.Remove | backend/user/services/post_service.go:221-242 | an empty user, a missing post and another user's post are refused in that order and change nothing; otherwise exactly the posts with another id remain and no other table changes |
| UserPostService.OnlyOwnerDeletes | backend/user/services/post_service.go:231-234 | whoever is not the owner, the delete fails and every table stays |
| UserPostService.PostService.constructor | backend/user/services/post_service.go:18-19 | the service keeps the database it is given |
| UserPostService.PostService.GetPostDetail | backend/user/services/post_service.go:62-109 | answer and new tables are those of Detail on the old tables |
| UserPostService.PostService.CreatePost | backend/user/services/post_service.go:112-120 | answer and new tables are those of Store |
| UserPostService.PostService.AddReaction | backend/user/services/post_service.go:149-183 | answer and new tables are those of Toggle |
| UserPostService.PostService.DeletePost | backend/user/services/post_service.go:221-242 | answer and new tables are those of Remove |
| UserAccountService.FindOrCreateUser | backend/user/services/user_service.go:27-48 | a live user with the Google id is returned as stored; a withdrawn row still holding it makes the insert fail with "failed to create user: "; otherwise a new "user" row is appended |
| UserAccountService.RegisterOrLoginOutcome | backend/user/services/user_service.go:19-73 | googleID and then email must be non-empty; with both ids the call succeeds exactly when the user is found or created; on success the session expires 24 hours from now, belongs to that user and is stored, and without a valid session exactly one new session row is appended; a failure changes nothing |
| UserAccountService.LoginExtendsSession | backend/user/services/user_service.go:50-58 | a returning user with a valid session gets that session back, same id, expiry moved to now + 24h, with no user or session row added |
| UserAccountService.GetUserInfo | backend/user/services/user_service.go:76-92 | googleID must be non-empty; a missing or withdrawn user is "user not found"; a live user with the Google id gives a success, with a live stored user's id, email, role and registration date |
| UserAccountService.GetUserById | backend/user/services/user_service.go:95-106 | userID must be non-empty; a missing or withdrawn user is "user not found"; a live user with the id gives a success, a live stored user with that id |
| UserAccountService.LogoutOutcome | backend/user/services/user_service.go:109-123 | sessionID must be non-empty; no matching row is "session not found"; on success exactly the sessions with another id remain and nothing else changes |
| UserAccountService.DeleteUserOutcome | backend/user/services/user_service.go:134-158 | googleID must be non-empty and name a live user; on success every session of the user is deleted and only that user's row is stamped deleted now, in one transaction |
| UserAccountService.WithdrawnCannotReturn | backend/user/services/user_service.go:27-48 | after withdrawal the user is not found, and signing in again with the same Google account fails on the unique googleId |
| UserAccountService.UserService.constructor | backend/user/services/user_service.go:19-20 | the service keeps the database it is given |
| UserAccountService.UserService.RegisterOrLogin | backend/user/services/user_service.go:19-73 | answer and new tables are those of RegisterOrLoginOutcome |
| UserAccountService.UserService.Logout | backend/user/services/user_service.go:109-123 | answer and new tables are those of LogoutOutcome |
| UserAccountService.UserService.DeleteUser | backend/user/services/user_service.go:134-158 | answer and new tables are those of DeleteUserOutcome |
| UserBusinessService.Int32Add | backend/user/services/business_service.go:99-104 | adding to an int32 accumulator wraps the same whether it wraps at every step or once at the end |
| UserBusinessService.DayStart | backend/user/services/business_service.go:126 | truncating to 24 hours gives the UTC midnight at or before the instant |
| UserBusinessService.Bucket | backend/user/services/business_service.go:125-146 | one day's `01/02` label and the int32 sums of the reactions and views of the posts strictly inside that day |
| UserBusinessService.Week | backend/user/services/business_service.go:124-147 | seven buckets, the first six days back and the last today |
| UserBusinessService.StatsOver | backend/user/services/business_service.go:99-147 | the post count, the int32-wrapped reaction and view totals, an average that truncates toward zero (0 with no posts), and seven buckets, oldest first, one per day |
| UserBusinessService.AverageTruncates | backend/user/services/business_service.go:106-109 | the average is the reaction total divided by the post count with Go's truncation: the remainder lies strictly within one post count of zero and has the total's sign, and the average is 0 with no posts |
| UserBusinessService.BusinessStatsOf | backend/user/services/business_service.go:89-150 | an empty userID and only that is "userID is required"; otherwise the statistics over the caller's posts |
| UserBusinessService.TotalsExact | backend/user/services/business_service.go:99-104 | while the sums fit in int32 the totals are the exact sums |
| UserBusinessService.TotalWraps | backend/user/services/business_service.go:99-104 | two posts with 2^31-1 and 1 reactions give a total of -2^31 |
| UserBusinessService.BucketsConsecutive | backend/user/services/business_service.go:124-127 | the seven buckets start on consecutive midnights, oldest first |
| UserBusinessService.BucketStartShift | backend/user/services/business_service.go:126 | the bucket i days back starts i days before today's midnight |
| UserBusinessService.MidnightCountsNowhere | backend/user/services/business_service.go:132 | a post stamped exactly at one of the seven midnights is in no bucket, since both ends of a day are excluded |
| UserBusinessService.BucketsDisjoint | backend/user/services/business_service.go:132 | no post is counted in two buckets |
| UserBusinessService.SumDay | backend/user/services/business_service.go:129-137 | the inner loop's int32 sums are the wrapped sums over the posts strictly inside the day |
| UserBusinessService.SumTotals | backend/user/services/business_service.go:99-104 | the totals loop's int32 sums are the wrapped sums over every post |
| UserBusinessService.GetBusinessProfile | backend/user/services/business_service.go:153-175 | an empty userID is refused and a caller without a row gets "business profile not found"; otherwise the first row of the caller |
| UserBusinessService.Edit | backend/user/services/business_service.go:189-205 | each non-empty argument replaces its field and every other field is kept |
| UserBusinessService.EditIdempotent | backend/user/services/business_service.go:189-205 | an edit with nothing given changes nothing, and the same edit twice is the edit once |
| UserBusinessService.SaveEdited | backend/user/services/business_service.go:184-207 | without a row of the caller nothing changes; otherwise the caller's first row is replaced in place by its edited form, which is returned |
| UserBusinessService.UpdateBusinessProfile | backend/user/services/business_service.go:178-222 | an empty userID is refused with nothing changed; otherwise the caller's row is edited and saved |
| UserBusinessService.ProfileUpdateIsLocal | backend/user/services/business_service.go:178-222 | the update touches one row of one table, and in that row only the fields given non-empty values; the reply is the saved row |
| UserBusinessService.UpdateBusinessName | backend/user/services/business_service.go:249-265 | userID and name are required, then a row of the caller; a caller with both arguments and a row gets Pass, and only the name changes |
| UserBusinessService.UpdateBusinessAddress | backend/user/services/business_service.go:268-288 | userID and address are required, then a row of the caller; a caller with both arguments and a row gets Pass, the address changes and the zip code only when one is given |
| UserBusinessService.UpdateBusinessPhone | backend/user/services/business_service.go:291-307 | userID and phone are required, then a row of the caller; a caller with both arguments and a row gets Pass, and only the phone changes |
| UserBusinessService.DataUrl | backend/user/services/business_service.go:27-36 | the URL starts with "data:" and ends with the base64 text of the image |
| UserBusinessService.UploadBusinessIcon | backend/user/services/business_service.go:20-50 | a failed read, then a missing profile, abort with nothing changed; with data read and a profile present the call succeeds, and the data URL is stored as the caller's profile image and returned |
| UserBusinessService.BusinessService.constructor | backend/user/services/business_service.go:57-59 | the service keeps the database it is given |
| UserBusinessService.BusinessService.GetBusinessStats | backend/user/services/business_service.go:89-150 | the two loops compute exactly BusinessStatsOf for the current tables |
| UserOtherServices.AddBlock | backend/user/services/other_service.go:15-21 | the block table gains one row for the pair after the rows it had, and no other table changes; no check that the users differ or that the pair is new |
| UserOtherServices.RemoveBlocks | backend/user/services/other_service.go:24-27 | every row of the pair is deleted and no row of another pair, in order, each other row as often as before; no other table changes |
| UserOtherServices.BlockList | backend/user/services/other_service.go:30-36 | exactly the rows whose blocked user is the one asked for, in table order, each as often as stored |
| UserOtherServices.UnblockUndoesBlock | backend/user/services/other_service.go:15-27 | one unblock undoes any block of the pair: blocking first makes no difference, and the pair is then unblocked |
| UserOtherServices.SelfBlockStored | backend/user/services/other_service.go:15-21 | blocking oneself is accepted and stored |
| UserOtherServices.BlockListsUnderBlocked | backend/user/services/other_service.go:30-36 | a block lists under the blocked user and does not change the blocker's own list |
| UserOtherServices.CreateReportOutcome | backend/user/services/other_service.go:42-55 | refused exactly when the reason is empty, changing nothing; otherwise a pending report dated now is appended |
| UserOtherServices.CreateContactOutcome | backend/user/services/other_service.go:61-73 | refused exactly when subject or text is empty, changing nothing; otherwise a pending contact is appended |
| UserOtherServices.CreateApplicationOutcome | backend/user/services/other_service.go:79-92 | refused exactly when name, address or phone is empty, changing nothing; otherwise a pending application is appended |
| UserOtherServices.AnonymousApplicationAccepted | backend/user/services/other_service.go:79-83 | an application with an empty user id is accepted, since the user id is not checked |
| UserOtherServices.InsertedRowsPending | backend/user/services/other_service.go:42-73 | each inserted report and contact starts pending |
| UserOtherServices.BlockService.constructor | backend/user/services/other_service.go:12 | the service keeps the database it is given |
| UserOtherServices.BlockService.BlockUser | backend/user/services/other_service.go:15-21 | the tables become AddBlock of the old tables |
| UserOtherServices.BlockService.UnblockUser | backend/user/services/other_service.go:24-27 | the tables become RemoveBlocks of the old tables |
| UserOtherServices.BlockService.GetBlockList | backend/user/services/other_service.go:30-36 | the loop returns exactly BlockList of the tables |
| UserOtherServices.SubmissionService.constructor | backend/user/services/other_service.go:39 | the service keeps the database it is given |
| UserOtherServices.SubmissionService.CreateReport | backend/user/services/other_service.go:42-55 | answer and tables are those of CreateReportOutcome |
| UserOtherServices.SubmissionService.CreateContact | backend/user/services/other_service.go:61-73 | answer and tables are those of CreateContactOutcome |
| UserOtherServices.SubmissionService.CreateBusinessApplication | backend/user/services/other_service.go:79-92 | answer and tables are those of CreateApplicationOutcome |
| UserPostHandler.SelectPostId | backend/user/handlers/post_handler.go:48-51 | the postId parameter when non-empty, the id parameter otherwise |
| UserPostHandler.GetPostDetailOutcome | backend/user/handlers/post_handler.go:47-65 | an id Atoi refuses is 400 "invalid postId" with nothing changed; otherwise the service runs on the int32-narrowed id, its detail is returned and any error of it becomes 404 with its message |
| UserPostHandler.PostIdWins | backend/user/handlers/post_handler.go:48-51 | a non-empty postId decides the answer whatever id holds |
| UserPostHandler.WideIdWraps | backend/user/handlers/post_handler.go:52-58 | an id past the int32 range is narrowed, not refused: n + 2^32 reads post n |
| UserPostHandler.StripDataUrl | backend/user/handlers/post_handler.go:105-112 | everything after the first comma, or the whole string without one |
| UserPostHandler.FirstCommaAt | backend/user/handlers/post_handler.go:107 | the first comma of a comma-free prefix, a comma and a rest is the one after the prefix |
| UserPostHandler.StripIconDataUrl | backend/user/handlers/post_handler.go:105-112 | stripping a data URL built by the icon upload gives back its base64 text whenever the MIME type has no comma |
| UserPostHandler.PostImage | backend/user/handlers/post_handler.go:103-122 | only the first image is read; an empty payload or a failed decode leaves the image empty and the request goes on |
| UserPostHandler.OnlyFirstImage | backend/user/handlers/post_handler.go:104-105 | images after the first never matter |
| UserPostHandler.PlaceFor | backend/user/handlers/post_handler.go:130-143 | a non-zero placeId is narrowed to int32 and used unchecked; zero asks the place service, whose failure is 500 "failed to register place" |
| UserPostHandler.RequiredPresent | backend/user/handlers/post_handler.go:71-75 | gin's `binding:"required"`: latitude, longitude, title, description and genre each hold a non-zero value, so a coordinate of exactly 0 is refused |
| UserPostHandler.BuildPost | backend/user/handlers/post_handler.go:69-155 | binding, then a title of at most 50 code points, a description of at most 2000, a known genre and a caller are checked in that order, each with its status and message (an empty caller after any known genre is 401); once all pass, the call succeeds exactly when the place is found or registered, and otherwise answers the place's failure; the post built copies title and description, the first image and the narrowed genre, with no reactions or views, dated now |
| UserPostHandler.GenreBeforeCaller | backend/user/handlers/post_handler.go:94-128 | an unknown genre is 400 even without a caller, and any known genre without a caller is 401 |
| UserPostHandler.CreatePostOutcome | backend/user/handlers/post_handler.go:69-177 | a failed check stores nothing; otherwise the post is appended, and the 500 for a failed place read-back comes with the post already stored; once the checks pass, the answer is a success exactly when the place reads back, and then reports the new id and the place's coordinates |
| UserPostHandler.ServiceCheckUnreachable | backend/user/handlers/post_handler.go:79-83 | the service's own empty title or text check never fires from this handler, since binding refuses empty values first |
| UserPostHandler.PostHandler.constructor | backend/user/handlers/post_handler.go:25-31 | the handler keeps the post service it is given |
| UserPostHandler.PostHandler.GetPostDetail | backend/user/handlers/post_handler.go:47-65 | answer and tables are those of GetPostDetailOutcome |
| UserPostHandler.PostHandler.CreatePost | backend/user/handlers/post_handler.go:69-177 | answer and tables are those of CreatePostOutcome |
| UserAuthHandler.SplitBearer | backend/user/handlers/auth_handler.go:250-261 | an empty header is missing; splitting on every space must give exactly two fields, the first "Bearer" |
| UserAuthHandler.SplitBearerAccepts | backend/user/handlers/auth_handler.go:257-261 | a token is accepted exactly when the header is "Bearer " followed by it and it has no space; it may be empty |
| UserAuthHandler.EmptyTokenDiffers | backend/user/handlers/auth_handler.go:257-261 | unlike the business backend's parser, which reports an empty token, "Bearer " passes here with the empty token |
| UserAuthHandler.SpacedTokenDiffers | backend/user/handlers/auth_handler.go:257-261 | a token containing a space is refused here, while the business backend's parser returns it whole |
| UserAuthHandler.ParsersAgreeOnPlainTokens | backend/user/handlers/auth_handler.go:257-261 | for a non-empty token without spaces both backends' parsers return it |
| UserAuthHandler.GetCurrentUser | backend/user/handlers/auth_handler.go:249-277 | 200 exactly when the header parses, the token verifies and its user exists; a bad header is 401 |
| UserAuthHandler.Refresh | backend/user/handlers/auth_handler.go:292-325 | 200 exactly when the current-user checks pass and a new token can be signed; a failed check answers as GetCurrentUser does |
| UserAuthHandler.Logout | backend/user/handlers/auth_handler.go:80-100 | the body's session id when non-empty, else the context's, is logged out and a service error is 500; with neither the reply is 400 and the service is not called |
| UserAuthHandler.Withdrawal | backend/user/handlers/auth_handler.go:114-132 | no Google id in the context is 401 and deletes nothing; otherwise the user is deleted and a service error is 500 |
| UserAuthHandler.ExchangeToken | backend/user/handlers/auth_handler.go:146-168 | a request without a token or with a role other than user or business is 400; a valid request is 401 exactly when Google verification fails, and otherwise goes on with the token's verified subject and e-mail and the role asked for |
| ReportSummary.LastMember | read_report_json.py:27-28 | the value of the last member with the key, and none exactly when no member has it, as parsing keeps the last of duplicate keys |
| ReportSummary.Get | read_report_json.py:28 | a member found in an object is strictly smaller than the object |
| ReportSummary.GetOr | read_report_json.py:28 | the default when the key is absent, the member otherwise |
| ReportSummary.Iterate | read_report_json.py:31-32 | a loop over a list meets its elements, each smaller than the list |
| ReportSummary.AbsentOkNotReported | read_report_json.py:43 | a spec without "ok" counts as passed and prints nothing |
| ReportSummary.OnlyFailuresReported | read_report_json.py:47-48 | a passed result prints nothing; any other status prints its status line first |
| ReportSummary.MessageTruncated | read_report_json.py:49-52 | a string message prints as "  Error: " with its first 200 characters and "..." |
| ReportSummary.ErrorRun | read_report_json.py:49-52 | the error line: the message, or "" when it is falsy, cut to 200 elements and followed by "..."; slicing a number, a boolean or an object raises |
| ReportSummary.ResultRun | read_report_json.py:46-52 | a passed result prints nothing; any other prints its status and, when its error is truthy, the error line |
| ReportSummary.TestRun | read_report_json.py:45-46 | a test's results in list order, an absent list counting as empty |
| ReportSummary.SpecRun | read_report_json.py:42-52 | a spec is reported only when `ok` is present and falsy: a header naming its title and file, then its tests |
| ReportSummary.SuiteRun | read_report_json.py:40-56 | `process_suite`: a truthy specs list is walked first, then a truthy child-suite list, each child in turn |
| ReportSummary.SuiteOrder | read_report_json.py:40-56 | a suite's specs print before its child suites, and nothing of the children prints once a spec raised |
| ReportSummary.SuitesInOrder | read_report_json.py:55-56 | child suites are processed in list order: the run over a list is the run over any prefix followed by the run over the rest |
| ReportSummary.StripBom | read_report_json.py:19 | no byte-order mark remains and the rest of the text keeps its order |
| ReportSummary.StripBomIdempotent | read_report_json.py:19 | removing the marks twice is removing them once |
| ReportSummary.LastIndexOf | read_report_json.py:23 | the last position of the character, none exactly when it is absent |
| ReportSummary.Span | read_report_json.py:22-26 | none exactly when a brace is missing; otherwise the slice from the first '{' to the last '}', empty when they are out of order |
| ReportSummary.SpanBraced | read_report_json.py:22-26 | a non-empty span starts with '{' and ends with '}' |
| ReportSummary.ReversedBracesGiveEmptySpan | read_report_json.py:25-27 | "}{" gives the empty span that parsing then refuses |
| ReportSummary.Extract | read_report_json.py:21-35 | the brace span is parsed and its stats printed before the suites are walked; without a brace pair the first 500 characters are printed; a parse error raises |
| ReportSummary.ReadReportRun | read_report_json.py:5-38 | as written: a UTF-16 text prints only the header; two failed reads print the UTF-8 error; otherwise the UTF-8 text is summarised and any exception escapes |
| ReportSummary.Utf16ReportIgnored | read_report_json.py:8-19 | a report that decodes as UTF-16 is never summarised |
| ReportSummary.ParseErrorEscapes | read_report_json.py:27-38 | a span that does not parse escapes instead of printing "Error parsing JSON" |
| ReportSummary.ReadReportIntended | read_report_json.py:5-38 | as evidently intended: the run never raises and always starts with the header |
| ReportSummary.IntendedSummarisesUtf16 | read_report_json.py:8-38 | a UTF-16 report is summarised like a UTF-8 one, and a parse failure prints "Error parsing JSON: " and the exception's text |
| ReportSummary.ReadReport | read_report_json.py:5-38 | the step-by-step run prints exactly what ReadReportIntended, the corrected script of the third and fourth Findings rows, says |
| FrontTypes.Lookup | frontend/src/components/Sidebar.tsx:47 | a record lookup yields a value exactly when the key is present, and then the record's value |
| FrontTypes.GenreTables | frontend/src/lib/mockData.ts:3-39 | both tables have exactly the six genre keys, GENRE_MAP numbers them 0 to 5 in order, and no two genres share a label |
| FrontTypes.KeyIndex | frontend/src/components/MainApp.tsx:218 | the position of a genre key in the label table, -1 exactly for a non-genre |
| FrontAuth.OrElse | frontend/src/lib/auth.ts:33-34 | JavaScript "or" on text: a when it is a non-empty string, b otherwise |
| FrontAuth.ToStoredUser | frontend/src/lib/auth.ts:32-43 | id and Google id copied; the e-mail is gmail, else email, else ""; the date is createdAt, else registrationDate, else now; an empty role becomes "general" |
| FrontAuth.EmailFromServer | frontend/src/lib/auth.ts:33 | the stored e-mail is empty exactly when neither server field has text, and otherwise is one of them |
| FrontAuth.ClockIrrelevantWithDate | frontend/src/lib/auth.ts:34 | the current time matters only when the server sent neither date |
| FrontAuth.StoredRoundTrip | frontend/src/lib/auth.ts:32-43 | converting a stored user with an e-mail, a date and a role back to server form and again gives it back |
| Sidebar.FilterPosts | frontend/src/components/Sidebar.tsx:26-78 | a business user gets every post; anyone else gets exactly the posts passing the keyword, the corrected genre test (finding 2) and the date filters, in their original order, each as often as it occurs |
| Sidebar.KeywordStage | frontend/src/components/Sidebar.tsx:35-42 | the keyword stage keeps every post when the keyword is empty and otherwise those matching it |
| Sidebar.GenreStage | frontend/src/components/Sidebar.tsx:44-49 | the genre stage, with the corrected test, narrows the keyword stage's list only when a genre is chosen |
| Sidebar.DateStage | frontend/src/components/Sidebar.tsx:51-64 | the date stage narrows the genre stage's list only when a date filter is chosen |
| Sidebar.GenreFilterRejectsAll | frontend/src/components/Sidebar.tsx:45-48 | as written, looking the numeric id up in the label table never matches, so any chosen genre empties the list |
| Sidebar.GenreMatchAsWritten | frontend/src/components/Sidebar.tsx:45-48 | the genre test as written: the label looked up under the post's numeric id, `String(genreId)`, against the label of the chosen genre |
| Sidebar.GenreStageAsWrittenEmpties | frontend/src/components/Sidebar.tsx:44-49 | as written, the genre stage returns the empty list whatever list reaches it, once a genre is chosen |
| Sidebar.GenreMatchByKey | frontend/src/components/Sidebar.tsx:45-48 | with genreIdToKey applied, a post passes exactly when its id names the chosen genre |
| Sidebar.GenreIdToKeyInvertsGenreMap | frontend/src/components/Sidebar.tsx:80-87 | the id-to-key table inverts GENRE_MAP |
| Sidebar.AgeOf | frontend/src/components/Sidebar.tsx:89-101 | under an hour (or in the future) is just now; otherwise the whole hours below 24, or the whole days, that bound the difference |
| Sidebar.FormatDate | frontend/src/components/Sidebar.tsx:89-102 | "たった今", the hours and "時間前", or the days and "日前", as the age says |
| Sidebar.AgeMonotone | frontend/src/components/Sidebar.tsx:89-102 | an older post never shows a smaller age |
| AdminContacts.Query | frontend/src/components/AdminContactManagement.tsx:41 | the query as matched: trimmed, then lower-cased |
| AdminContacts.Shown | frontend/src/components/AdminContactManagement.tsx:40-50 | an inquiry is hidden when answered under the open-only switch; otherwise shown when the query is empty or occurs in its lower-cased name, e-mail or text |
| AdminContacts.FilteredInquiries | frontend/src/components/AdminContactManagement.tsx:40-50 | exactly the inquiries passing the open-only switch and the trimmed, lower-cased query against name, e-mail and text, in list order, each as often as it occurs; with the switch on none is answered |
| AdminContacts.BlankQueryKeepsAll | frontend/src/components/AdminContactManagement.tsx:41-44 | a blank query hides nothing, or only the answered inquiries with the switch on |
| AdminContacts.SubjectNotSearched | frontend/src/components/AdminContactManagement.tsx:45-49 | whether an inquiry is shown does not depend on its subject |
| AdminContacts.OpenReply | frontend/src/components/AdminContactManagement.tsx:52-56 | the dialog opens on the inquiry with its draft or an empty text, and the list and filters are unchanged |
| AdminContacts.CloseModal | frontend/src/components/AdminContactManagement.tsx:79-83 | the dialog closes with nothing selected and an empty text; nothing else changes |
| AdminContacts.UpdateById | frontend/src/components/AdminContactManagement.tsx:60-65 | the update applies to the inquiries with the id only, and the list keeps its length |
| AdminContacts.SendEmail | frontend/src/components/AdminContactManagement.tsx:58-68 | with nothing open nothing happens; otherwise the inquiries with the id become answered and lose their draft, the rest are unchanged, and the dialog closes |
| AdminContacts.SaveDraft | frontend/src/components/AdminContactManagement.tsx:70-77 | with nothing open nothing happens; otherwise the inquiries with the id get the text as draft and nothing else, and the dialog closes |
| AdminContacts.DraftRoundTrip | frontend/src/components/AdminContactManagement.tsx:52-77 | reopening a saved inquiry shows the text that was in the dialog |
| AdminContacts.SentLeavesUnanswered | frontend/src/components/AdminContactManagement.tsx:40-68 | after sending, the inquiry is answered, hidden under open-only, and reopens with an empty text |
| AdminDashboardState.PendingReports | frontend/src/components/AdminDashboard.tsx:125 | the number of reports not yet handled, zero exactly when every report is handled |
| AdminDashboardState.RemoveApplication | frontend/src/components/AdminDashboard.tsx:147-157 | exactly the applications with another id remain, in order, each as often as before |
| AdminDashboardState.RemoveAbsentApplication | frontend/src/components/AdminDashboard.tsx:147-157 | removing an id that is not listed changes nothing |
| AdminDashboardState.ResolveReport | frontend/src/components/AdminDashboard.tsx:159-172 | the reports with that id become handled; their removal flag and every other report stay |
| AdminDashboardState.DeletePost | frontend/src/components/AdminDashboard.tsx:174-200 | when confirmed, every report of the post becomes handled and removed and the others stay; when not, nothing changes |
| AdminDashboardState.ResolveCountsDown | frontend/src/components/AdminDashboard.tsx:125-172 | resolving a pending report with a unique id lowers the pending count by one; resolving a handled one leaves it |
| AdminDashboardState.DeletedPostHasNoPendingReport | frontend/src/components/AdminDashboard.tsx:185-198 | after a confirmed deletion no report of the post is pending and each is marked removed |
| AdminDashboardState.DeleteAccount | frontend/src/components/AdminDashboard.tsx:208-212 | exactly the accounts with another id remain, in order, each as often as before |
| AdminDashboardState.DeleteInquiry | frontend/src/components/AdminDashboard.tsx:219-224 | when confirmed exactly the inquiries with another id remain, in order, each as often as before; when not, nothing changes |
| AdminReportList.SortKey | frontend/src/components/AdminReport.tsx:25-30 | the comparator as a descending key: pending before resolved, then the later parsed date |
| AdminReportList.SortedReports | frontend/src/components/AdminReport.tsx:25-30 | the same reports as a multiset, every pending one before every resolved one, and later dates first within a status |
| AdminReportList.SortedKeepsEveryReport | frontend/src/components/AdminReport.tsx:25-30 | the sorted list has the input's length and lists each of its reports |
| AdminReportList.Actions | frontend/src/components/AdminReport.tsx:77-97 | a pending report offers delete with its post id and dismiss with its own id; a resolved one offers nothing |
| BusinessDashboardView.SumByAppend | frontend/src/components/BusinessDashboard.tsx:55-56 | a reduce sum over two lists is the sum over each |
| BusinessDashboardView.TotalReactions | frontend/src/components/BusinessDashboard.tsx:55 | the sum of the posts' reaction counts |
| BusinessDashboardView.TotalViews | frontend/src/components/BusinessDashboard.tsx:56 | the sum of the posts' view counts, a missing count adding nothing |
| BusinessDashboardView.TotalsAdd | frontend/src/components/BusinessDashboard.tsx:55-56 | each post adds its reactions to the reaction total and its views, or nothing when it has none, to the view total; over two lists the totals add up |
| BusinessDashboardView.TotalViewsNonNegative | frontend/src/components/BusinessDashboard.tsx:56 | the view total is never negative when no post has a negative count |
| BusinessDashboardView.RoundQuotient | frontend/src/components/BusinessDashboard.tsx:57 | Math.round of a quotient: the integer within one half of it, halves rounded up |
| BusinessDashboardView.AverageReactions | frontend/src/components/BusinessDashboard.tsx:57 | 0 with no posts; otherwise within one half of the mean number of reactions |
| BusinessDashboardView.TopPosts | frontend/src/components/BusinessDashboard.tsx:59 | up to five posts of the input, most reacted first, and no post left out has more reactions than one kept |
| BusinessDashboardView.FindKey | frontend/src/components/BusinessDashboard.tsx:62 | a key is found exactly when some key maps to the id, and the one found does |
| BusinessDashboardView.GenreIdToKey | frontend/src/components/BusinessDashboard.tsx:61-64 | always a genre key: the one GENRE_MAP gives the id, or "other" when none does |
| BusinessDashboardView.FoundIffMapped | frontend/src/components/BusinessDashboard.tsx:62 | searching the keys in order finds the id exactly when some genre has it |
| BusinessDashboardView.GenreIdToKeyInvertsGenreMap | frontend/src/components/BusinessDashboard.tsx:61-64 | every genre maps back to itself, and an id outside 0 to 5 becomes "other" |
| BusinessDashboardView.AgreesWithSidebar | frontend/src/components/BusinessDashboard.tsx:61-64 | the dashboard's lookup agrees with the sidebar's table wherever that table has an entry |
| MainAppState.AddReactions | frontend/src/components/MainApp.tsx:159-184 | the posts with that id move their reaction count by the amount; the rest stay |
| MainAppState.HandleReaction | frontend/src/components/MainApp.tsx:158-195 | the direction is set by whether the post was reacted to; both lists and the open post move that way, the id joins or leaves the set, and nothing else changes |
| MainAppState.AddReactionsCancel | frontend/src/components/MainApp.tsx:159-184 | adding and then taking back a count leaves every post as it was |
| MainAppState.ReactTwiceRestores | frontend/src/components/MainApp.tsx:158-195 | reacting twice to the same post restores the whole state |
| MainAppState.CreatedGenreId | frontend/src/components/MainApp.tsx:218 | the position of the genre key in the label table, 0 for a non-genre |
| MainAppState.CreatedGenreMatchesGenreMap | frontend/src/components/MainApp.tsx:218 | a genre key becomes the id GENRE_MAP gives it |
| MainAppState.HandleCreatePin | frontend/src/components/MainApp.tsx:197-239 | the new post goes first in both post lists and its place first in the places, sharing one id from the clock; the dialog closes and forgets its coordinates; selection, reactions and view stay |
| MainAppState.HandleDeletePin | frontend/src/components/MainApp.tsx:241-245 | exactly the posts with another id remain in both lists, in order, each as often as before, and nothing is selected |
| MainAppState.CreateThenDelete | frontend/src/components/MainApp.tsx:197-245 | a pin created and then deleted leaves the posts as they were when no earlier post had the new id |
| MainAppState.HandleBlockUser | frontend/src/components/MainApp.tsx:281-306 | an already blocked user gives no update; otherwise the user's blocks gain one record of the pair |
| MainAppState.BlockKeepsDistinct | frontend/src/components/MainApp.tsx:281-306 | blocking keeps the blocked ids distinct and always leaves the user blocked |
| MainAppState.HandleNavigate | frontend/src/components/MainApp.tsx:308-316 | the view becomes the one asked for; going to logout remembers the current view when it is map, my page or dashboard |
| MainAppState.HandleLogoutBack | frontend/src/components/MainApp.tsx:318-320 | the view returns to the remembered one and nothing else changes |
| MainAppState.LogoutAndBack | frontend/src/components/MainApp.tsx:308-320 | leaving the logout screen returns to where it was entered from, and the remembered view is always one to come back to |
| NewPostForm.InitialForm | frontend/src/components/NewPostScreen.tsx:38-45 | empty fields, genre "other", no images, and the given coordinates or else the point in Kochi |
| NewPostForm.Validate | frontend/src/components/NewPostScreen.tsx:85-111 | a blank title, a title over 50 UTF-16 units, a blank text and an unparsable coordinate fail in that order with their messages, the last as the position message; otherwise the pin from the fields and the parsed coordinates |
| NewPostForm.HandleSubmit | frontend/src/components/NewPostScreen.tsx:85-128 | a failed check shows its message only; otherwise onCreate runs, then success and close, or an error toast when it throws |
| NewPostForm.CreateOnlyWhenValid | frontend/src/components/NewPostScreen.tsx:85-128 | onCreate runs exactly once when every check passes and never otherwise; the dialog closes only after it and only when it did not throw |
| NewPostForm.BlankTitleFirst | frontend/src/components/NewPostScreen.tsx:88-92 | a blank title is reported first whatever else is wrong |
| NewPostForm.TitleMeasuredInUtf16 | frontend/src/components/NewPostScreen.tsx:93-97 | 26 characters outside the Basic Multilingual Plane already make the title too long |
| NewPostForm.Utf16Wide | frontend/src/components/NewPostScreen.tsx:93 | such characters take two UTF-16 units each |
| NewPostForm.Successes | frontend/src/components/NewPostScreen.tsx:59-75 | the data URLs of the files that could be read, in the order chosen |
| NewPostForm.HandleFileChange | frontend/src/components/NewPostScreen.tsx:59-75 | no file list changes nothing; otherwise the readable files' URLs are appended after the images already chosen |
| NewPostForm.RemoveImage | frontend/src/components/NewPostScreen.tsx:81-83 | every image but the one at the index, in order; an index outside the list removes nothing |
| NewPostForm.RemoveFrom | frontend/src/components/NewPostScreen.tsx:82 | the filter over positions from a start keeps every image from there on except the one at the index |
| NewPostForm.RemoveLastAdded | frontend/src/components/NewPostScreen.tsx:59-83 | removing the image just added gives back the list before |
| BusinessApplyForm.PhonePattern | frontend/src/components/UserInputBusinessApplication.tsx:39 | `/^\d{10,11}$/`: ten or eleven ASCII digits and nothing else |
| BusinessApplyForm.Acceptable | frontend/src/components/UserInputBusinessApplication.tsx:38-39 | a name, an address and a trimmed phone matching the pattern; only the phone is trimmed |
| BusinessApplyForm.HandleSubmit | frontend/src/components/UserInputBusinessApplication.tsx:36-75 | a form failing the check gives only the error toast; otherwise loading is raised, the request sent with the trimmed phone and the Google id, success updates the user and closes, failure shows the network error, and loading is lowered last |
| BusinessApplyForm.LastSetLoadingWins | frontend/src/components/UserInputBusinessApplication.tsx:48-74 | the last loading update decides the flag |
| BusinessApplyForm.LoadingSettles | frontend/src/components/UserInputBusinessApplication.tsx:48-74 | the form is never left loading, and a request is sent exactly when the check passes |
| BusinessApplyForm.ClosesOnlyWhenAccepted | frontend/src/components/UserInputBusinessApplication.tsx:59-68 | the user is updated and the form closed exactly after an accepted request |
| BusinessApplyForm.SentPhoneIsDigits | frontend/src/components/UserInputBusinessApplication.tsx:38-56 | every phone number sent is 10 or 11 digits |
| BusinessApplyForm.UntrimmedFieldsAccepted | frontend/src/components/UserInputBusinessApplication.tsx:38-42 | a name or address of spaces only passes the check, since only the phone is trimmed |
| ReportForm.Step | frontend/src/components/ReportScreen.tsx:29-73 | sending a blank reason only shows the error; any other reason shows success, clears the text, closes the form and completes once; open, cancel and typing set only their field |
| ReportForm.CompletionsBoundedBySends | frontend/src/components/ReportScreen.tsx:29-38 | the report completes at most once per send |
| ReportForm.TypeThenSendTwice | frontend/src/components/ReportScreen.tsx:29-58 | typing a reason and sending completes once and leaves the form closed and empty; a second send completes nothing |
| ReportForm.CancelKeepsReason | frontend/src/components/ReportScreen.tsx:67-73 | cancelling keeps the typed reason for the next opening |
| ReportForm.ReportScreen.constructor | frontend/src/components/ReportScreen.tsx:27-28 | no reason, nothing shown or completed, and the given open state |
| ReportForm.ReportScreen.OpenForm | frontend/src/components/ReportScreen.tsx:40-51 | the new state is Step of the old with an opening |
| ReportForm.ReportScreen.TypeReason | frontend/src/components/ReportScreen.tsx:58 | the new state is Step of the old with the text typed |
| ReportForm.ReportScreen.Cancel | frontend/src/components/ReportScreen.tsx:67-73 | the new state is Step of the old with a cancel |
| ReportForm.ReportScreen.HandleReport | frontend/src/components/ReportScreen.tsx:29-38 | the new state is Step of the old with a send |
| ReactionButton.Render | frontend/src/components/UserTriggerReaction.tsx:29-43 | a business user gets the "not allowed" caption whatever isReacted is; the button is disabled exactly when isDisabled is set or the user is a business; a click reports the pin exactly otherwise; the filled look marks a reacted post |
| ReactionButton.ClickIffEnabled | frontend/src/components/UserTriggerReaction.tsx:32-38 | an enabled button always reacts and a disabled one never does |
| ReactionButton.BusinessIgnoresReacted | frontend/src/components/UserTriggerReaction.tsx:29-41 | for a business user caption and click do not depend on isReacted |
| MapPins.GroupPosts | frontend/src/components/MapViewScreen.tsx:35-42 | the `groupedPosts` reduce: each post in turn is pushed onto the list kept under its placeId |
| MapPins.GroupsArePlaces | frontend/src/components/MapViewScreen.tsx:35-42 | a group exists exactly for each place some post has, and holds the posts at that place in input order |
| MapPins.AtPlaceEmpty | frontend/src/components/MapViewScreen.tsx:38 | no post at a place means an empty filter |
| MapPins.GroupMembers | frontend/src/components/MapViewScreen.tsx:35-42 | every post of a group is at that place and in the input, the group keeps the input's order, and no group is empty |
| MapPins.PinSizeClass | frontend/src/components/MapViewScreen.tsx:56-60 | the large class from 50 posts, the middle one from 2, the small one otherwise |
| MapPins.SizeRank | frontend/src/components/MapViewScreen.tsx:56-60 | the three size classes ranked from small to large |
| MapPins.PinSizeMonotone | frontend/src/components/MapViewScreen.tsx:56-60 | more posts never make a pin smaller |
| MapPins.Badge | frontend/src/components/MapViewScreen.tsx:112-114 | a badge exactly for more than one post, showing the count |
| MapPins.BadgeIffShared | frontend/src/components/MapViewScreen.tsx:56-114 | a pin carries a badge exactly when it is drawn larger than the smallest size, that is when two posts share its place |

## Left out

- Concurrency: the mutexes of the MFA validator, the session store, the blacklist and the mock repositories are not modelled. Neither are the goroutine tickers that run the expiry sweeps, nor `Stop`. Only each sweep's body is modelled, as a method.
- I/O: e-mail delivery through SES, HTTP and Gin plumbing (routers, response writers, JSON binding), GORM queries. The tables never fail, apart from database error texts that come in as parameters.
- Configuration `Load`: its `log.Fatal` exit and its reading of the process environment are not modelled. Only `getEnv` (with the environment as a map) and `getAllowedOrigins` are.
- Foreign code, taken as parameters: crypto/rand, JWT signing and verification, Google ID-token verification, `http.DetectContentType`, base64, UUID generation, the clock, time parsing, `parseFloat`/`String(number)`, JSON decoding and `json.dumps`, and Unicode `toLowerCase`.
- MockRepos: the stubs `SetGenres` and `History` always answer with fixed values, as do `MockStatsRepo` and `MockPaymentRepo`. These four are not modelled.
- BizMemberService: `GetMemberInfoByGoogleID` is not modelled; it is a pass-through to the repository lookup already modelled.
- UserBusinessService.BusinessStatsOf: day buckets are taken in UTC (`t - t mod 86400`). Daylight saving and the server's local time zone are not modelled.
- Floating point: JavaScript numbers are modelled as exact integers and reals. The rounding in `toFixed(1)` and the engagement rate's float conversion are not modelled; the place service's distance threshold and haversine are not modelled.
- AdminReportList: a date string that does not parse sorts as NaN in the source. In the model, dates are already-parsed integers.
- BizReportRepo.ReportTable.Create: applies the corrected duplicate test of the first Findings row (`CreateReport`), so a second report of post 2^32 + 5 by the same reporter is refused, where the code as written stores it. The as-written create is CreateAsWritten.
- ReportSummary.ReadReport: runs the evidently intended script of the third and fourth Findings rows (`ReadReportIntended`). A report that decodes as UTF-16 is summarised, and an unparsable span prints "Error parsing JSON", where the code as written prints only the header or lets the exception escape. The as-written run is ReadReportRun.
- Sidebar.FilterPosts: applies the corrected genre test of the second Findings row, not the lookup as written. The as-written stage is GenreStageAsWrittenEmpties: it leaves an empty list once a genre is chosen.
- Sidebar.FormatDate: takes a date already parsed to milliseconds. In the source an unparsable date gives NaN and displays "NaN日前"; that text is not modelled. DateMatch handles an invalid date as failing every comparison.
- BizReportRepo.CheckRequest: the wrapped time.Parse error text of "invalid reportedAt format: %w" is not modelled; the message stops at the prefix.
- ReportSummary: `JNum` holds integers only. JSON reals such as 0.5 are not modelled, so neither is their truthiness.
- MockRepos.MockPostRepo.Create: the panic of the unchecked `payload.(*domain.CreatePostRequest)` assertion (mock_repos.go:213) is not modelled. The service's own type check comes first, so no call from the service reaches it.
- UserDb.User: the e-mail field follows `user_service.go`, which writes `Email`. `models/user.go:13` declares it as `Gmail` (column `gmail`, also a unique index). The model follows the service code, and that unique index is not modelled.
- Toasts, `confirm()` and navigation in the frontend are modelled as events in a sequence, or as inputs. Rendering, styles and the Radix/Recharts wrappers are not modelled.
- MainAppState: `handleUpdateUser` is not modelled; it only stores the record it is given.
- AdminDashboardState: `handleRespondInquiry` is not modelled; it belongs to the contact screen's flow, which AdminContacts models.
- MapPins: only the HEAD side of the merge-conflict region in `MapViewScreen.tsx` (lines 34-53) is modelled; the origin/main side is not. The same holds for the duplicated halves of `report_repository.go` and `admin_report_service.go`.
- NewPostForm: the file reader's asynchronous callbacks are modelled as a sequence of read outcomes in the order the files were chosen.
- ReportForm: `onReportComplete` is modelled as a count of calls, without its effect on the parent.
- UserPostService: `GetAllPosts`, `GetUserPostHistory` and the search functions are not modelled; they are query plumbing outside the reaction, pin-size and deletion logic.
- Python source rewriters (`update_column_names.py`, `update_app_tsx.py`, `fix_mainapp.py`) and the HTTP reproduction script are not part of this model.
- Tests and end-to-end specs: properties are taken from the code. Where a test disagrees with the code (the MFA lockout message, the self-block check in the block service), the model follows the code.

## Findings

| source | as written | input that shows it | evidently intended | confidence | as-written member | corrected member |
|---|---|---|---|---|---|---|
| backend/business/internal/repository/impl/report_repo.go:45-56 | the duplicate test compares the stored `int32(TargetPostID)` column with the request's full 64-bit post id | reporter "u" reports post 2^32 + 5 twice: the test finds no row with post id 2^32 + 5, so two rows for post 5 are stored | the test uses the id the row stores, so that a (reporter, post) pair appears at most once | not executed | BizReportRepo.AsWrittenStoresDuplicates | BizReportRepo.CreateKeepsPairsUnique |
| frontend/src/components/Sidebar.tsx:45-48 | the genre filter looks `post.genreId`, a number, up in `genreLabels`, a table keyed by genre names, so the lookup is undefined | any chosen genre, for example "food", with any post: the post is dropped and the list comes out empty | the id is mapped to its key first (`genreIdToKey`) and that key is compared with the chosen genre | not executed | Sidebar.GenreFilterRejectsAll | Sidebar.GenreMatchByKey |
| read_report_json.py:8-35 | span extraction and the suite walk sit inside the `except` of the UTF-16 read, so they run only when that read fails | a report file that decodes as UTF-16: only the header line is printed | the report is summarised after whichever read succeeded | not executed | ReportSummary.Utf16ReportIgnored | ReportSummary.IntendedSummarisesUtf16 |
| read_report_json.py:27-38 | the "Error parsing JSON" clause follows the `except Exception:` of line 11 on the same `try`; an exception raised inside that handler is not caught by its sibling, so it can never run | the UTF-16 read fails, and the UTF-8 text holds a brace span that does not parse: the exception escapes the function | a span that does not parse is reported as "Error parsing JSON" followed by the exception's text | not executed | ReportSummary.ParseErrorEscapes | ReportSummary.IntendedSummarisesUtf16 |
