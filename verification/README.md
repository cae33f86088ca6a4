# rentle-spark core, modelled in Dafny

rentle-spark is a front end for a flat-share matching service. Apart from its screens, it holds a few small state machines and list pipelines. This project models them as pure Dafny functions over immutable records and proves their contracts:

- **Credit ledgers.** Three variants are modelled side by side, because their policies differ:
  - the client credit store spends free credits before paid ones and can be reset to (3, 0) (`CreditStore`);
  - the mock credit service only ever spends free credits and tops up paid ones by `n` (`CreditsService`);
  - the standalone credits page keeps a single pooled counter, persisted as text and read back with `parseInt(...) || 3` (`PooledCredits`, using the `parseInt` model in `JsNumber`).

  The mock free-summary request is "consume a free credit, then read the balance" (`SummaryApi`).
- **Match ranking.** The generator drops the requester, gives every other candidate a random score in 60..100, sorts best first and keeps the top ten (`MatchService`). The request picks the requester by email, runs the generator, keeps scores with `compatibility / 100 >= min` and cuts the list at `limit` (`MatchesApi`). The random numbers are a parameter: a sequence of draws in [0, 1).
- **Questionnaire.** A step counter kept within 0..4, per-page answers, reset (`FormStore`), and the page's selection rules: multi-select toggle, single choice, "can proceed", "next" (`FormPage`).
- **Profiles.**
  - The stored questionnaire profile: its default value, the soft-merge on load, and the submit payload (`LocalProfile`).
  - The profile store's spread update (`ProfileStore`).
  - The mock sign-in, which names the user after the local part of the email (`AuthStore`).
- **URL join.** The workflow back-end URL is joined to a path with exactly one `/` (`N8nClient`).

Mutable module state and zustand stores become explicit state values threaded through functions. Browser storage is an `Option<string>` input, and `JSON.parse` is a function parameter. Numbers are unbounded integers, and the match threshold is compared over reals.

Three behaviours of the code are easy to miss, and the model keeps each of them:
- Running out of credit is not an error. The store's `consumeOne` and the mock `consumeFreeCreditMock` leave an empty ledger unchanged, and the summary mock still answers (`CreditStore.ConsumeOne`, `SummaryApi.FourthRequestStillAnswers`).
- A top-up is not checked. `addPaidCreditsMock` accepts a negative amount and lets the paid balance go below zero (`CreditsService.NegativeTopUpGoesNegative`).
- A free-summary request always answers. The mock spends a free credit when there is one, never touches paid credits, and returns its text either way (`SummaryApi.RequestTimesSpendsOnlyFree`).

## Model

| member | source | states |
|---|---|---|
| CreditsService.GetCreditsMock | src/lib/creditsService.ts:10-12 | reading returns a copy equal to the ledger and leaves the ledger unchanged |
| CreditsService.ConsumeFreeCreditMock | src/lib/creditsService.ts:14-17 | free drops by 1 iff it was positive; otherwise it is a no-op; paid is never touched; the returned copy equals the post-state |
| CreditsService.AddPaidCreditsMock | src/lib/creditsService.ts:19-22 | paid rises by exactly n (5 when no amount is given), free is unchanged, the post-state is returned; non-negativity is kept only for n >= 0 |
| CreditsService.ReturnsPostState | src/lib/creditsService.ts:11-21 | every mock call returns exactly the ledger it leaves behind |
| CreditsService.RunKeepsNonNegative | src/lib/creditsService.ts:8-22 | under any sequence of calls without negative top-ups, both balances stay >= 0 |
| CreditsService.RunIsMonotone | src/lib/creditsService.ts:14-22 | under any call sequence the free balance never rises; when every top-up in it is non-negative, the paid balance never falls |
| CreditsService.ConsumeFreeIdempotentAtZero | src/lib/creditsService.ts:15 | at free = 0, consuming is a no-op, so repeating it is idempotent |
| CreditsService.NegativeTopUpGoesNegative | src/lib/creditsService.ts:19-20 | a top-up of -1 from the initial ledger gives a negative paid balance: there is no guard |
| CreditsService.InitialScenario | src/lib/creditsService.ts:8-22 | from (3, 0): four free consumptions reach (0, 0); a default top-up gives (3, 5) |
| CreditStore.ConsumeOne | src/stores/useCreditStore.ts:14-21 | free is spent first; paid is spent only when free <= 0; with nothing left it is a no-op; for non-negative balances, the total drops by 1 exactly when it is positive and stays non-negative |
| CreditStore.ResetCredits | src/stores/useCreditStore.ts:22-24 | the balance after a reset is (3, 0), whatever it was before |
| CreditStore.ResetIdempotent | src/stores/useCreditStore.ts:12-24 | a reset equals the initial state, and resetting twice is resetting once |
| CreditStore.RunKeepsNonNegative | src/stores/useCreditStore.ts:12-24 | no sequence of consumptions and resets makes a balance negative |
| CreditStore.ConsumeTimesSpendsFreeFirst | src/stores/useCreditStore.ts:14-21 | n consumptions take only free credits while n <= free; the total after n is total - n, floored at 0 |
| CreditStore.InitialScenario | src/stores/useCreditStore.ts:12-21 | from (3, 0), three consumptions reach (0, 0) and a fourth leaves (0, 0) |
| CreditStore.HandleGenerateMatches | src/pages/Results.tsx:24-31 | matches are generated iff the total balance is positive, spending one credit as `consumeOne` does (a free one while any is left, else a paid one); otherwise the user goes to the credits page |
| SummaryApi.RequestFreeSummaryMock | src/lib/summaryApi.ts:19-26 | paid is unchanged; free drops by 1 iff it was positive; the reported balance is the post-state; the canned text is always returned |
| SummaryApi.SummaryIsOneConsumption | src/lib/summaryApi.ts:21-25 | a request is exactly one free-credit consumption followed by a read |
| SummaryApi.RequestTimesSpendsOnlyFree | src/lib/summaryApi.ts:19-25 | n requests spend min(n, free) free credits and never a paid one |
| SummaryApi.FourthRequestStillAnswers | src/lib/summaryApi.ts:19-25 | after the initial grant is used up, a request still answers with the text and (0, 0); there is no failure |
| JsNumber.DigitValue | src/pages/credits.js:4 | a character's digit value is always below the radix |
| JsNumber.TrimStart | src/pages/credits.js:4 | parsing skips leading white space: the result is the input minus a prefix made only of white space, and it does not start with white space |
| JsNumber.DigitRun | src/pages/credits.js:4 | the digit run is the longest prefix of digits in the radix |
| JsNumber.NatToString | src/pages/credits.js:16 | the decimal rendering is non-empty, all digits, with no leading zero |
| JsNumber.ToString | src/pages/credits.js:16 | the text starts with '-' iff n < 0, and every other character is a decimal digit; ParseIntToString reads it back |
| JsNumber.DigitsValueOfNatToString | src/pages/credits.js:16 | reading back the decimal digits of n gives n |
| JsNumber.ParseUnsignedNatToString | src/pages/credits.js:4-16 | the unsigned part of parseInt reads the rendering of n as n |
| JsNumber.ParseInt | src/pages/credits.js:4 | the parse succeeds only on text with something after the white space; a negative value needs a leading '-', and a leading '-' never gives a positive value |
| JsNumber.ParseIntSkipsWhiteSpace | src/pages/credits.js:4 | a white-space character in front of the text does not change the parse |
| JsNumber.ParseIntNoDigit | src/pages/credits.js:4 | text whose first non-space character is not a sign or digit (such as "null") parses to NaN |
| JsNumber.ParseIntToString | src/pages/credits.js:4-16 | parseInt of the persisted decimal text of any integer gives that integer back |
| PooledCredits.InitCredits | src/pages/credits.js:4 | the counter starts at the stored integer; a missing, unparsable or zero value gives 3, so it is never 0 |
| PooledCredits.Use | src/pages/credits.js:20-28 | takes away 1 iff the counter is positive, otherwise leaves it unchanged |
| PooledCredits.Buy | src/pages/credits.js:31-35 | always adds exactly 5 |
| PooledCredits.Premium | src/pages/credits.js:38-47 | takes away 2 iff the counter is at least 2, otherwise leaves it unchanged |
| PooledCredits.RunKeepsNonNegative | src/pages/credits.js:20-47 | from a non-negative counter, no sequence of clicks goes below zero |
| PooledCredits.RunBounds | src/pages/credits.js:20-47 | the counter ends between start - 1 per use - 2 per premium and start + 5 per purchase |
| PooledCredits.Persist | src/pages/credits.js:16 | the stored text of the counter parses back to the counter |
| PooledCredits.ReloadRestores | src/pages/credits.js:4-17 | reloading restores the persisted counter, except that a persisted 0 comes back as 3 |
| PooledCredits.InitFallbacks | src/pages/credits.js:4 | a missing entry, "", "abc" and "0" all start the counter at 3 |
| MatchService.ScoreOf | src/lib/matchService.ts:18 | every score is an integer in 60..100 |
| MatchService.ExcludeId | src/lib/matchService.ts:15 | no remaining profile has the requester's id, the result is no longer than the pool, and a pool without the id is left unchanged |
| MatchService.ExcludeIdKeepsOthers | src/lib/matchService.ts:15 | every profile with another id is kept |
| MatchService.ExcludeIdSubMultiset | src/lib/matchService.ts:15 | excluding never adds or duplicates a profile |
| MatchService.ExcludeIdCounts | src/lib/matchService.ts:15 | every copy of a profile with the requester's id is dropped and every copy of any other profile is kept |
| MatchService.ExcludeIdAppend | src/lib/matchService.ts:15 | excluding distributes over concatenation, so the kept profiles keep their pool order |
| MatchService.Score | src/lib/matchService.ts:16-19 | one result per candidate, in pool order, scored with that candidate's draw |
| MatchService.Insert | src/lib/matchService.ts:20 | inserting adds exactly one element (a multiset identity) |
| MatchService.SortByCompatibility | src/lib/matchService.ts:20 | sorting is a permutation of its input |
| MatchService.Take | src/lib/matchService.ts:21 | slice(0, n) is the prefix of length min(n, length), and the whole list when n >= length |
| MatchService.WithScoreAppend | src/lib/matchService.ts:20 | the entries with a given score, taken from a concatenation, are those of each part in order |
| MatchService.InsertSorted | src/lib/matchService.ts:20 | inserting into a best-first list keeps it best first |
| MatchService.InsertUsers | src/lib/matchService.ts:20 | inserting adds exactly the inserted user to the list's users |
| MatchService.InsertWithScore | src/lib/matchService.ts:20 | the inserted entry goes after every entry already there with the same score |
| MatchService.SortSorted | src/lib/matchService.ts:20 | the sorted list is non-increasing in compatibility |
| MatchService.SortUsers | src/lib/matchService.ts:20 | sorting keeps exactly the same users |
| MatchService.SortStable | src/lib/matchService.ts:20 | sorting is stable: entries with equal scores keep their input order |
| MatchService.SortedPrefix | src/lib/matchService.ts:20-21 | a prefix of a best-first list is best first |
| MatchService.TopMatchesFacts | src/lib/matchService.ts:20-21 | the top ten are sorted, of length min(10, n), drawn from the scored list, and all of it when n <= 10 |
| MatchService.TopMatchesKeepsBest | src/lib/matchService.ts:20-21 | no scored entry left out of the top ten scores more than an entry kept in it |
| MatchService.GenerateMatchesMock | src/lib/matchService.ts:13-21 | never the requester's id; scores in 60..100; best first; length min(10, non-self candidates); every user comes from the pool with no duplication; with at most 10 candidates, a permutation of them |
| MatchService.GenerateKeepsBest | src/lib/matchService.ts:13-21 | every non-self candidate the generator drops scores at most as much as each of the ten it returns |
| MatchService.GenerateKeepsPoolOrderOnTies | src/lib/matchService.ts:14-21 | with at most ten candidates, equally scored matches come out in pool order |
| MatchesApi.FindByEmail | src/lib/matchesApi.ts:12 | finds the first profile whose email matches, and finds none exactly when no profile matches |
| MatchesApi.PickMe | src/lib/matchesApi.ts:12-13 | the requester is the profile at the first email match, else `all[0]`; there is none exactly when the pool is empty |
| MatchesApi.ApplyThreshold | src/lib/matchesApi.ts:18 | every kept entry satisfies compatibility / 100 >= min, and only input entries are kept |
| MatchesApi.ApplyThresholdComplete | src/lib/matchesApi.ts:18 | every entry that meets the threshold is kept |
| MatchesApi.ApplyThresholdAppend | src/lib/matchesApi.ts:18 | filtering distributes over concatenation, so kept entries stay in input order |
| MatchesApi.ApplyThresholdCounts | src/lib/matchesApi.ts:18 | every copy of a passing entry is kept and no copy of a failing one |
| MatchesApi.ApplyThresholdSorted | src/lib/matchesApi.ts:16-18 | filtering keeps a best-first list best first |
| MatchesApi.SliceTo | src/lib/matchesApi.ts:19 | slice(0, limit) is a prefix of length min(limit, n); a negative limit drops that many entries from the end |
| MatchesApi.FilterSliceFacts | src/lib/matchesApi.ts:16-19 | filter-then-slice returns input entries that meet the threshold, at most limit of them, keeping best-first order |
| MatchesApi.PipelineMembers | src/lib/matchesApi.ts:14-19 | results are pool members other than the requester |
| MatchesApi.PipelineShape | src/lib/matchesApi.ts:15-19 | results meet the threshold, lie in 60..100, are best first, number at most 10 and at most limit |
| MatchesApi.GetTopMatchesMock | src/lib/matchesApi.ts:8-20 | an empty pool gives []; otherwise the answer is a prefix of the generated matches that pass the threshold, of length min(limit, their number) for limit >= 0 and their number minus |limit| (at least 0) for a negative limit; never the requester; only pool members; sorted; at most 10 |
| MatchesApi.NoCutAtLargeLimit | src/lib/matchesApi.ts:15-19 | with limit >= 10, every generated match that meets the threshold is returned |
| MatchesApi.DefaultThresholdIs94 | src/lib/matchesApi.ts:8-18 | with the default arguments, every returned compatibility is at least 94 |
| MatchesApi.ThresholdAboveOneIsEmpty | src/lib/matchesApi.ts:18 | a threshold above 1 returns nothing |
| MatchesScenario.TopTwoOfThree | src/lib/matchesApi.ts:8-20 | with draws scoring three candidates 70, 95 and 81, threshold 0 and limit 2, the answer is the 95 and then the 81 |
| FormStore.Get | src/stores/useFormStore.ts:4-10 | the zodiac field holds one string and the other four hold lists |
| FormStore.NextStep | src/stores/useFormStore.ts:24-29 | advances iff the step is below 4 and is a no-op at 4; only the step changes |
| FormStore.PrevStep | src/stores/useFormStore.ts:30-35 | goes back iff the step is above 0 and is a no-op at 0; only the step changes |
| FormStore.UpdateAnswers | src/stores/useFormStore.ts:36-41 | sets the named field only; the step and the other fields are unchanged |
| FormStore.ResetForm | src/stores/useFormStore.ts:42-51 | back to step 0 with every list empty and zodiac "" |
| FormStore.RunKeepsStepInRange | src/stores/useFormStore.ts:24-51 | the step stays within 0..4 after any sequence of operations |
| FormStore.ResetIsInitial | src/stores/useFormStore.ts:18-51 | a reset is the initial state and is idempotent |
| FormStore.NextTimesSaturates | src/stores/useFormStore.ts:24-29 | n "next" steps reach min(step + n, 4) |
| FormPage.MultiSelect | src/pages/Form.tsx:12-37 | only page 0 allows several answers; pages 1-4 take one (HandleSelect toggles exactly on such a page) |
| FormPage.KeyOf | src/pages/Form.tsx:58-59 | only the last page writes the zodiac string |
| FormPage.KeyOfInjective | src/pages/Form.tsx:58-59 | different pages write different fields |
| FormPage.ZodiacAsList | src/pages/Form.tsx:54 | an empty zodiac is no answer, any other is a one-element list |
| FormPage.CurrentAnswers | src/pages/Form.tsx:54 | on pages 0-3 the answers are that page's list; on page 4 they are [] for "" and [zodiac] otherwise |
| FormPage.RemoveAll | src/pages/Form.tsx:64 | removes every copy of the option and keeps every other element |
| FormPage.Toggle | src/pages/Form.tsx:62-65 | the option is present afterwards iff it was absent; an absent option is appended at the end; other options keep their counts |
| FormPage.HandleSelect | src/pages/Form.tsx:57-70 | page 0 toggles; pages 1-3 set [option]; page 4 sets the bare string; the step and the other fields are unchanged |
| FormPage.CanProceed | src/pages/Form.tsx:80 | "next" is enabled iff the current page's answers are non-empty (SelectEnablesNext and InitialCannotProceed state when) |
| FormPage.HandleNext | src/pages/Form.tsx:72-78 | goes to the results iff on page 4, otherwise advances one page |
| FormPage.ToggleTwiceRestores | src/pages/Form.tsx:62-65 | toggling an absent option twice returns the original list |
| FormPage.SelectEnablesNext | src/pages/Form.tsx:57-80 | after a single-choice click "next" is enabled (on page 4 iff the option is non-empty), as it is after adding an option on page 0 |
| FormPage.InitialCannotProceed | src/pages/Form.tsx:54-80 | a fresh questionnaire has no answer, so "next" starts disabled |
| LocalProfile.DefaultProfile | src/lib/localProfile.ts:21-35 | step 0, blank texts and age, 20 null general answers, every trait slot null |
| LocalProfile.SoftMerge | src/lib/localProfile.ts:43 | a key present in the stored object wins; a missing key keeps the default |
| LocalProfile.LoadLocalProfile | src/lib/localProfile.ts:37-47 | a missing or empty entry, or a parse failure, gives the default; otherwise the stored keys merged over the default |
| LocalProfile.BuildSubmitPayload | src/lib/localProfile.ts:58-73 | the texts and trait records are copied; the fg answers keep their length, with null sent as 0; a blank age is sent as 0 |
| LocalProfile.LoadNoKeys | src/lib/localProfile.ts:40-43 | a stored object with none of the keys loads as the default |
| LocalProfile.LoadSavedProfile | src/lib/localProfile.ts:43-51 | a stored copy of a whole profile loads back unchanged |
| LocalProfile.LoadFillsMissingKeys | src/lib/localProfile.ts:42-43 | keys missing from an older stored copy come from the default; present ones are kept |
| LocalProfile.DefaultPayload | src/lib/localProfile.ts:21-73 | a fresh profile is sent as twenty zeros with age 0 |
| LocalProfile.PayloadIgnoresStep | src/lib/localProfile.ts:58-73 | the questionnaire step is not part of the payload |
| LocalProfile.PayloadConflatesNullAndZero | src/lib/localProfile.ts:64-70 | an unanswered question and an answer of 0 give the same payload, and so do a blank age and age 0 |
| ProfileStore.Spread | src/stores/useProfileStore.ts:39-40 | keys in the patch overwrite, keys absent from it keep their values; record keys are never lost |
| ProfileStore.UpdateProfile | src/stores/useProfileStore.ts:37-42 | the patch is spread into both records; an empty patch changes nothing |
| ProfileStore.RunKeepsKeys | src/stores/useProfileStore.ts:25-42 | whatever patches are applied, the basic record keeps its six keys and the extra record its two |
| ProfileStore.UpdateIdempotent | src/stores/useProfileStore.ts:37-42 | applying the same patch twice equals applying it once |
| ProfileStore.UpdateComposes | src/stores/useProfileStore.ts:37-42 | two updates equal one update with the later patch's keys winning |
| ProfileStore.UpdateCrossesRecords | src/stores/useProfileStore.ts:25-42 | a bio patch lands on the basic record and a name patch on the extra record, which lacked those keys |
| AuthStore.NameFromEmail | src/stores/useAuthStore.ts:24 | the name is a prefix of the email, contains no '@', and ends at the first '@' or at the end of the email |
| AuthStore.Login | src/stores/useAuthStore.ts:20-27 | the user gets id "1", the given email and the derived name; the session is "mock-session-token" |
| AuthStore.Logout | src/stores/useAuthStore.ts:28-30 | user and session are both cleared |
| AuthStore.NameFromEmailUnique | src/stores/useAuthStore.ts:24 | only one string has those three properties, so the name is fully determined |
| AuthStore.NameOfAddress | src/stores/useAuthStore.ts:24 | for local@domain with no '@' in local, the name is local |
| AuthStore.LoginLogout | src/stores/useAuthStore.ts:18-30 | login signs in; login then logout gives the initial state; logout is idempotent |
| AuthStore.LoginReplaces | src/stores/useAuthStore.ts:20-27 | a second login replaces the first user entirely |
| N8nClient.HasN8n | src/lib/n8nClient.ts:5-7 | the back end counts as configured iff the base URL is set, non-empty and starts with "http" (N8nUrl fails exactly when it is not) |
| N8nClient.TrimTrailingSlashes | src/lib/n8nClient.ts:11 | a prefix of the input that does not end in '/', and everything dropped was '/' |
| N8nClient.TrimLeadingSlashes | src/lib/n8nClient.ts:11 | a suffix of the input that does not start with '/', and everything dropped was '/' |
| N8nClient.N8nUrl | src/lib/n8nClient.ts:5-12 | fails with "N8N base URL not configured" iff the base is unset, empty or does not start with "http"; otherwise returns a URL that starts with "http" |
| N8nClient.OneSlashAtSeam | src/lib/n8nClient.ts:11 | the URL is the trimmed base, '/', the trimmed path, with no slash on either side of the separator |
| N8nClient.LeadingSlashIgnored | src/lib/n8nClient.ts:11 | a leading '/' on the path does not change the URL |
| N8nClient.TrailingSlashIgnored | src/lib/n8nClient.ts:11 | a trailing '/' on a configured base does not change the URL |
| N8nClient.PlainJoin | src/lib/n8nClient.ts:11 | a base with no trailing slash and a path with no leading slash are joined as base + "/" + path |
| N8nClient.PathIsSuffix | src/lib/n8nClient.ts:11 | a path without a leading slash ends the URL verbatim, after a '/' |
| N8nClient.NonHttpRefused | src/lib/n8nClient.ts:5-10 | an unset base, an empty base and an ftp base are all refused |

## Left out

- Network branches of `requestFreeSummary`, `getTopMatches` and the credits API, and `fetchJson` (src/lib/n8nClient.ts:14-25): fetch, abort controllers and timers. Only the mock branches taken when no back end is configured are modelled.
- SummaryApi.RequestFreeSummaryMock: requests are taken one at a time. The code awaits the consumption and then the read as two separate steps (src/lib/summaryApi.ts:21-22). Two overlapping requests, such as a double click, could interleave, and the reported balance could then include the other request's consumption. Interleavings are not modelled.
- The credits API's mock branches: they only delegate to the mock credit service, which is modelled.
- Browser storage and `JSON.parse`: stored text is an `Option<string>` input and parsing is a function parameter. `saveLocalProfile` and `clearLocalProfile` only write storage; `LocalProfile.AllKeys` stands for what a save leaves behind.
- LocalProfile.LoadLocalProfile: a stored object whose values have the wrong types, or that has extra keys, is not modelled. The stored keys are typed, and unknown keys are dropped.
- LocalProfile.Profile: answers are integers, not floating-point numbers.
- DOM updates, `showMessage` and its `setTimeout` on the credits page: presentation only.
- PooledCredits.Persist: `String(n)` switches to exponent notation past 10^21, and JavaScript numbers lose precision past 2^53. Counters are unbounded integers here.
- JsNumber.ParseInt: models decimal and `0x` hexadecimal digit runs with an optional sign and leading white space. Precision loss on very long digit runs is not modelled.
- MatchesApi.MeetsThreshold: compares `compatibility / 100 >= min` over exact reals, not IEEE doubles.
- `Math.random` is replaced by a sequence of draws in [0, 1), one per candidate in pool order.
- The profile pool of `profileService` is a sequence parameter, and the profile repository is not part of this model.
- FormStore.UpdateAnswers: the store accepts any key name. The model accepts only the five answer fields, each with a value of its own shape, as the page always passes.
- ProfileStore.UpdateProfile: a patch key set explicitly to `undefined` is treated like a missing key.
- The page progress bar, its floating-point percentage, and every other screen, component and style file: presentation only.
- The supabase client setup: an environment lookup and a third-party constructor.
- Asynchronous delays in the match store and the sign-in page: timing only.
