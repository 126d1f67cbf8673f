# LarAmigoApp screen logic in Dafny

LarAmigoApp is a React Native app for an animal shelter. This project models
the logic behind its screens as pure functions from the old screen state to the
new one, and proves what each handler promises. Rendering is not modelled.

- **Search**: a twelve-pet catalog. A case-insensitive query on name or breed
  is ANDed with four multi-select category filters (species, size, age,
  gender). The screen also keeps a local list of favourite ids.
- **FavoriteStore**: the app-wide favourites list. It is keyed by pet id and
  supports toggle, remove, clear and a membership query.
- **Phone**: the Brazilian phone mask `(DD) DDDDD-DDDD` with its live
  progress message. Volunteer, TemporaryHome and Register carry identical
  copies of it; here it is defined once and used by all three.
- **Volunteer**, **TemporaryHome**, **Register**, **Login**, **Donation**: the
  forms. Each has field handlers and an ordered chain of submit checks, where
  the first failure decides the alert. An accepted submit shows a success
  alert and resets the form.
- **Donation** also models the mutual exclusion of preset and custom amounts,
  and the payment-method line of the summary.
- **News**: the category chips over six fixed news items.
- **Chat**: the blank-message guard, the append-only message log, and the
  fixed quick-question answers.

Shared modules:

- `Text` restates the JavaScript string operations the screens use over
  `seq<char>`: the `\D` digit filter, `toLowerCase`, `includes`, `trim`, `${n}`
  and `String.length` in UTF-16 code units.
- `Seqs` holds `Array.prototype.filter`, the subsequence relation, and the
  `indexOf`/`splice`/`push` toggle.
- `Forms` holds the alert, verdict and submission types.

Search, Volunteer, TemporaryHome, Register, Donation and Chat are also state
machines (`Event`, `Step`, `Run`). Each one's invariant is proved to hold on
the initial screen, to be preserved by every event, and so to hold on every
screen reachable from mount. Login holds only its two fields, and News only
the selected chip, so these two have no event type.

The phone progress message is `Digite 11 dígitos (n/11)`: the count of digits
typed so far. The field lists are those the source's `useState` initialisers
and JSX call sites use.

## Model

| member | source | states |
|---|---|---|
| Seqs.Filter | src/screens/Search.tsx:224-241 | `filter` returns no more elements than it was given, and every element it returns satisfies the predicate |
| Seqs.FilterMembership | src/screens/News.tsx:89 | an element is kept exactly when it occurs in the input and satisfies the predicate |
| Seqs.FilterIsSubsequence | src/screens/News.tsx:89 | `filter` keeps the input order: its result is a subsequence of the input |
| Seqs.FilterNoDup | src/screens/Search.tsx:206 | filtering a duplicate-free list yields a duplicate-free list |
| Seqs.IndexOf | src/screens/Search.tsx:188 | `indexOf` is -1 exactly when the value is absent; otherwise it is the position of the first occurrence |
| Seqs.Toggle | src/screens/Search.tsx:185-200 | an absent value is pushed at the end; a present one has its first occurrence spliced out and the rest kept in order |
| Seqs.ToggleMembership | src/screens/Search.tsx:187-194 | on a duplicate-free list the toggle flips membership of its value and of no other value |
| Seqs.ToggleNoDup | src/screens/Volunteer.tsx:84-100 | the toggle never creates a duplicate |
| Seqs.ToggleTwice | src/screens/Search.tsx:187-194 | toggling twice restores membership and, when the value was absent, restores the list itself |
| Text.Digits | src/screens/Volunteer.tsx:45 | `replace(/\D/g, '')` keeps only digits and never lengthens the text |
| Text.DigitsAppend | src/screens/Volunteer.tsx:45 | removing non-digits distributes over concatenation |
| Text.DigitsOfDigits | src/screens/Volunteer.tsx:45 | a string of digits is left as it is |
| Text.Lower | src/screens/Search.tsx:225-226 | `toLowerCase` keeps the length and folds each covered capital to its small letter |
| Text.LowerIdempotent | src/screens/Search.tsx:225-226 | lower-casing twice equals lower-casing once |
| Text.Contains | src/screens/Search.tsx:225-226 | a needle longer than the text never occurs in it |
| Text.ContainsIff | src/screens/Search.tsx:225-226 | `includes` holds exactly when the needle occurs at some position |
| Text.TrimStart | src/screens/Chat.tsx:33 | leading trim removes a white-space prefix, and the result does not start with white space |
| Text.TrimEnd | src/screens/Chat.tsx:33 | trailing trim removes a white-space suffix, and the result does not end with white space |
| Text.Trim | src/screens/Chat.tsx:33 | `trim()` returns a stretch of the text with only white space on either side of it, and no white space at either of its own ends |
| Text.TrimEmptyIff | src/screens/Chat.tsx:33 | `!s.trim()` holds exactly for strings made only of white space |
| Text.NatToString | src/screens/Volunteer.tsx:71 | `${n}` gives decimal digits with no leading zero that read back as `n` |
| Text.CountPhrase | src/screens/News.tsx:198 | a count label is the decimal count followed by either the singular or the plural noun |
| Text.CountPhraseSingularIff | src/screens/Search.tsx:355 | when the singular and plural differ, the singular is shown exactly for a count of one |
| Text.Utf16Length | src/screens/Register.tsx:91 | `length` is at least the code-point count and at most twice it, and equals it exactly when no code point is astral |
| Text.Utf16LengthOne | src/screens/Register.tsx:91 | one code point has `length` 1, or 2 when it lies above U+FFFF |
| Text.Utf16LengthAppend | src/screens/Register.tsx:91 | `length` adds up over concatenation, so it is the code-point count plus the number of astral code points |
| Phone.Substring | src/screens/Volunteer.tsx:48 | `substring(start, end)` for `start <= end`, the only order the mask uses (JavaScript swaps the arguments otherwise): both ends are clamped to the length, giving the exact slice when it fits, the tail when only the end overshoots, and empty when the start does |
| Phone.SubstringFrom | src/screens/Volunteer.tsx:57 | `substring(start)` is the tail from `start`, or empty past the end |
| Phone.Clean | src/screens/Volunteer.tsx:45-48 | the cleaned value is all digits and a prefix of the input's digits: all of them when there are at most 11, exactly the first 11 otherwise |
| Phone.MaskShape | src/screens/Volunteer.tsx:50-60 | the mask of 0, 1-2, 3-7 and 8-11 digits is empty, `(DD`, `(DD) D…`, and `(DD) DDDDD-D…` |
| Phone.MaskFitsField | src/screens/Volunteer.tsx:50-60 | a mask of at most 11 digits fits the field's `maxLength` of 15 |
| Phone.MaskDigits | src/screens/Volunteer.tsx:50-60 | the mask only adds punctuation: its digits are exactly the digits it was built from |
| Phone.Change | src/screens/Volunteer.tsx:43-75 | the field keeps exactly the cleaned digits within the `maxLength` of 15, and the error is empty exactly when 0 or 11 digits remain |
| Phone.ChangeIdempotent | src/screens/Volunteer.tsx:43-75 | feeding the formatted text back through the handler changes nothing |
| Phone.Progress | src/screens/Volunteer.tsx:68-74 | the live error is empty exactly when 0 or 11 digits were typed |
| Phone.ProgressNamesCount | src/screens/Volunteer.tsx:70-71 | a non-empty live error names the digit count in decimal |
| Phone.SubmitDigitsAgree | src/screens/Volunteer.tsx:104-110 | after a change, the submit check's 11 digits hold exactly when the live error is empty and the field is not |
| Phone.TypingPastElevenIgnored | src/screens/Volunteer.tsx:48 | once 11 digits are in, anything typed after them changes nothing |
| Phone.ExampleFullNumber | src/screens/TemporaryHome.tsx:33-65 | `41999998888` becomes `(41) 99999-8888` with no error |
| Phone.ExamplePartialNumber | src/screens/Register.tsx:29-61 | `419999` becomes `(41) 9999` with error `Digite 11 dígitos (6/11)` |
| Phone.ExampleOverlong | src/screens/Volunteer.tsx:43-75 | extra digits after a complete number leave the field as it was |
| Volunteer.InputChange | src/screens/Volunteer.tsx:77-82 | the named field takes the value and every other field keeps its own |
| Volunteer.PhoneChange | src/screens/Volunteer.tsx:43-75 | the phone and its error take the mask's output and nothing else changes |
| Volunteer.InterestToggle | src/screens/Volunteer.tsx:84-100 | an unselected interest is appended, a selected one has its first occurrence spliced out, and the other fields are unchanged |
| Volunteer.Validate | src/screens/Volunteer.tsx:102-121 | each error fires exactly when the earlier checks pass and its own check fails, in the source's order |
| Volunteer.Submit | src/screens/Volunteer.tsx:102-148 | a rejected form stays as it is with the error's alert; an accepted one is thanked and reset to the empty form |
| Volunteer.AcceptedIff | src/screens/Volunteer.tsx:102-121 | accepted exactly when the phone has 11 digits, name and e-mail are set and an interest is selected |
| Volunteer.PhoneCheckSubsumesEmptyPhone | src/screens/Volunteer.tsx:107-113 | the `!formData.phone` test can never fire after the 11-digit check passes |
| Volunteer.Step | src/screens/Volunteer.tsx:43-148 | submit either keeps the screen or resets it; only the phone handler touches the phone and its error, and only the toggle touches the interests |
| Volunteer.InitialInvariant | src/screens/Volunteer.tsx:17-29 | the screen on mount has no interest twice and its phone consistent with its live error |
| Volunteer.StepInvariant | src/screens/Volunteer.tsx:43-148 | every event keeps the interests duplicate-free and the phone consistent with its live error |
| Volunteer.RunInvariant | src/screens/Volunteer.tsx:17-148 | every run of events keeps the invariant |
| Volunteer.ReachableInvariant | src/screens/Volunteer.tsx:17-148 | every screen reachable from mount has duplicate-free interests and its phone consistent with its live error |
| Volunteer.PhoneCheckMatchesLiveError | src/screens/Volunteer.tsx:68-110 | under the invariant, which every reachable screen satisfies, the submit-time phone check agrees with the live error |
| Volunteer.InterestToggleFlips | src/screens/Volunteer.tsx:84-100 | the toggle flips its own interest and no other |
| Volunteer.InterestToggleTwice | src/screens/Volunteer.tsx:84-100 | toggling an interest twice restores which interests are selected and, when it was unselected, restores the screen itself |
| TemporaryHome.InputChange | src/screens/TemporaryHome.tsx:67-72 | the named field takes the value and every other field keeps its own |
| TemporaryHome.PhoneChange | src/screens/TemporaryHome.tsx:33-65 | the phone and its error take the mask's output and nothing else changes |
| TemporaryHome.Validate | src/screens/TemporaryHome.tsx:74-88 | the phone check comes first, then name/e-mail/phone; each fires exactly under its condition |
| TemporaryHome.Submit | src/screens/TemporaryHome.tsx:74-116 | a rejected form stays as it is; an accepted one is thanked and reset |
| TemporaryHome.AcceptedIff | src/screens/TemporaryHome.tsx:74-88 | accepted exactly when the phone has 11 digits and name and e-mail are set |
| TemporaryHome.OptionalFieldsIgnored | src/screens/TemporaryHome.tsx:74-88 | editing a field other than name or e-mail never changes the verdict |
| TemporaryHome.Step | src/screens/TemporaryHome.tsx:33-116 | submit either keeps the screen or resets it; only the phone handler touches the phone and its error |
| TemporaryHome.InitialInvariant | src/screens/TemporaryHome.tsx:17-30 | the screen on mount has its phone consistent with its live error |
| TemporaryHome.StepInvariant | src/screens/TemporaryHome.tsx:33-116 | every event keeps the phone consistent with its live error |
| TemporaryHome.RunInvariant | src/screens/TemporaryHome.tsx:17-116 | every run of events keeps the invariant |
| TemporaryHome.ReachableInvariant | src/screens/TemporaryHome.tsx:17-116 | every screen reachable from mount has its phone consistent with its live error |
| TemporaryHome.LiveErrorEmptyIff | src/screens/TemporaryHome.tsx:58-64 | under the invariant, which every reachable screen satisfies, the error is empty exactly when the phone holds 0 or 11 digits |
| Register.InputChange | src/screens/Register.tsx:63-68 | the named field takes the value and every other field keeps its own |
| Register.PhoneChange | src/screens/Register.tsx:29-61 | the phone and its error take the mask's output and nothing else changes |
| Register.Validate | src/screens/Register.tsx:70-95 | phone, required fields, password match, then length of at least 6, each firing exactly under its condition |
| Register.Submit | src/screens/Register.tsx:70-117 | a rejected form stays as it is; an accepted one is welcomed and reset |
| Register.AcceptedIff | src/screens/Register.tsx:70-95 | accepted exactly when the phone has 11 digits, name, e-mail and password are set, the passwords match, and the password has at least 6 UTF-16 units |
| Register.AstralPasswordLength | src/screens/Register.tsx:91 | three emoji already meet the 6-character minimum |
| Register.Step | src/screens/Register.tsx:29-117 | submit either keeps the screen or resets it; only the phone handler touches the phone and its error |
| Register.InitialInvariant | src/screens/Register.tsx:17-27 | the screen on mount has its phone consistent with its live error |
| Register.StepInvariant | src/screens/Register.tsx:29-117 | every event keeps the phone consistent with its live error |
| Register.RunInvariant | src/screens/Register.tsx:17-117 | every run of events keeps the invariant |
| Register.ReachableInvariant | src/screens/Register.tsx:17-117 | every screen reachable from mount has its phone consistent with its live error |
| Register.LiveErrorEmptyIff | src/screens/Register.tsx:54-60 | under the invariant, which every reachable screen satisfies, the error is empty exactly when the phone holds 0 or 11 digits |
| Login.InputChange | src/screens/Login.tsx:23-28 | the named field takes the value and the other keeps its own |
| Login.Validate | src/screens/Login.tsx:30-35 | accepted exactly when e-mail and password are both non-empty |
| Login.Submit | src/screens/Login.tsx:30-54 | an incomplete form gets the fill-in alert and stays; a complete one is welcomed and emptied |
| Login.AnyCredentialsAccepted | src/screens/Login.tsx:30-54 | any non-empty e-mail and password log in; the credentials are never checked |
| Donation.AmountSelect | src/screens/Donation.tsx:30-33 | a preset sets the preset amount, clears the custom one and changes nothing else |
| Donation.CustomAmount | src/screens/Donation.tsx:35-38 | typing sets the custom amount, clears the preset and changes nothing else |
| Donation.FinalAmount | src/screens/Donation.tsx:41 | the custom amount wins when set; otherwise the preset is used |
| Donation.MethodLabel | src/screens/Donation.tsx:208-209 | "PIX" exactly for `pix`, "Cartão de Crédito" exactly for `card`, "Não selecionado" exactly otherwise |
| Donation.Validate | src/screens/Donation.tsx:40-51 | no amount is reported first, then a missing name or e-mail, each exactly under its condition |
| Donation.Submit | src/screens/Donation.tsx:40-70 | a rejected donation stays as it is; an accepted one is thanked and every field is reset |
| Donation.AcceptedIff | src/screens/Donation.tsx:40-51 | accepted exactly when some amount, the name and the e-mail are set; the payment method never matters |
| Donation.NoMethodStillAccepted | src/screens/Donation.tsx:40-70 | a donation with no payment method chosen goes through, and its summary says "Não selecionado" |
| Donation.Step | src/screens/Donation.tsx:30-70 | the donate button either keeps the screen or resets it; name, e-mail and payment-method events leave both amounts alone |
| Donation.StepKeepsOneAmount | src/screens/Donation.tsx:30-38 | no event makes both amounts set |
| Donation.RunKeepsOneAmount | src/screens/Donation.tsx:30-70 | from any state with at most one amount, every run of events keeps at most one |
| Donation.InitialOneAmount | src/screens/Donation.tsx:17-21 | the screen on mount holds no amount and shows no summary |
| Donation.ReachableOneAmount | src/screens/Donation.tsx:17-70 | whatever the user does from mount, at most one amount is set |
| Donation.ShowsSummary | src/screens/Donation.tsx:198-203 | the summary block is shown exactly when the final amount it displays is set |
| Donation.SummaryIffAmountGiven | src/screens/Donation.tsx:40-45 | the summary is shown exactly when the amount check passes |
| Donation.FinalAmountIsTheSetOne | src/screens/Donation.tsx:41 | with at most one amount set, the final amount is whichever one is set |
| News.Filtered | src/screens/News.tsx:87-89 | "Todos" shows the data unchanged; any other chip shows only items of its category |
| News.FilteredIsCategorySubsequence | src/screens/News.tsx:87-89 | a chip keeps its category's items in data order, and only those |
| News.UnknownCategoryEmpty | src/screens/News.tsx:87-89 | a category no item carries shows nothing |
| News.CategoriesCoverData | src/screens/News.tsx:19-83 | every item's category has a chip |
| News.SelectionsByLayout | src/screens/News.tsx:19-89 | on six items laid out as the data is, each chip selects exactly its items |
| News.ExampleCareTips | src/screens/News.tsx:19-89 | "Dicas de Cuidado" shows items 1 and 5 |
| News.ExampleAdoptionStories | src/screens/News.tsx:19-89 | "Adoção Bem-Sucedida" shows items 2 and 6 |
| News.ExampleEventsAndCampaigns | src/screens/News.tsx:19-89 | the events chip shows item 3, and the campaigns chip shows item 4 |
| News.ExampleAllAndUnknown | src/screens/News.tsx:19-89 | "Todos" shows all six items, and an unknown category shows none |
| News.SectionTitle | src/screens/News.tsx:195 | the heading is "Todas as Notícias" under "Todos", otherwise the category name |
| News.CountLabel | src/screens/News.tsx:198 | the label reads "n item" exactly when n is 1, and "n itens" otherwise |
| Chat.Answer | src/screens/Chat.tsx:96-116 | each quick question gets the answer at its index, and any other text gets the default answer |
| Chat.AnswerScripted | src/screens/Chat.tsx:96-116 | every answer comes from the script: a table answer or the default answer |
| Chat.SendMessage | src/screens/Chat.tsx:32-55 | a blank input changes nothing and schedules nothing; otherwise the untrimmed text is appended as the user's, the input is cleared and the generic reply joins the end of the pending queue |
| Chat.QuickQuestion | src/screens/Chat.tsx:84-126 | the question is appended as the user's, the input is cleared and its answer joins the end of the pending queue |
| Chat.DeliverReply | src/screens/Chat.tsx:46-54 | the oldest pending reply is appended as the bot's and leaves the queue; the input is untouched |
| Chat.Step | src/screens/Chat.tsx:32-126 | no event rewrites or removes a message; at most one message is added |
| Chat.InitialInvariant | src/screens/Chat.tsx:22-28 | the screen on mount opens with the welcome and has nothing pending |
| Chat.StepInvariant | src/screens/Chat.tsx:32-126 | every event keeps the welcome first, every later bot message and pending reply scripted, and one reply, posted or pending, per user message |
| Chat.RunInvariant | src/screens/Chat.tsx:32-126 | every run of events keeps that invariant |
| Chat.BotOnlyAnswers | src/screens/Chat.tsx:22-126 | in every conversation the bot posts only scripted replies after the welcome, and the replies posted and pending are one per user message |
| Chat.NoUnrequestedReply | src/screens/Chat.tsx:46-54 | a timer event on the fresh screen changes nothing |
| Chat.RunAppendsOnly | src/screens/Chat.tsx:32-126 | after any run of events the old log is a prefix of the new one |
| Chat.ConversationStartsWithWelcome | src/screens/Chat.tsx:22-28 | every conversation opens with the bot's welcome |
| Chat.AuthorOfAppended | src/screens/Chat.tsx:35-53 | an appended message is the user's exactly when it came from typing or a quick question |
| Chat.QuickAnswersTable | src/screens/Chat.tsx:76-116 | each of the five quick questions gets its own answer, and another text gets the default |
| Search.FilteredPets | src/screens/Search.tsx:224-241 | every pet shown matches the query and every category selection |
| Search.FilteredIsSubsequence | src/screens/Search.tsx:224-241 | results keep catalog order; a pet is shown exactly when it is in the catalog and matches |
| Search.UnfilteredIsCatalog | src/screens/Search.tsx:224-241 | with an empty query and no selection, the whole catalog is shown |
| Search.CaseInsensitive | src/screens/Search.tsx:225-226 | queries that lower-case alike select alike |
| Search.FoundByName | src/screens/Search.tsx:225 | a pet is found by its own name typed in any case |
| Search.ExampleThor | src/screens/Search.tsx:28-39 | "THOR" and "thor" select alike, and both find Thor |
| Search.ExampleSmallCats | src/screens/Search.tsx:28-161 | species "gato" with size "pequeno" shows Luna, Duquesa, Snow and Pantera, in that order |
| Search.AbsentValueEmpties | src/screens/Search.tsx:228-238 | a selection naming only values no pet carries shows nothing |
| Search.ExampleNoSeniors | src/screens/Search.tsx:28-161 | the age chip "idoso" alone shows nothing |
| Search.ToggleFilter | src/screens/Search.tsx:185-201 | a chip appends an absent value or splices out the first occurrence of a present one, and leaves the other three categories untouched |
| Search.ToggleFilterFlips | src/screens/Search.tsx:185-201 | a chip flips its own value and no other value in any category |
| Search.ToggleFilterTwice | src/screens/Search.tsx:185-201 | pressing a chip twice restores which values are selected and, when the value was unselected, restores the filters themselves |
| Search.ToggleFavorite | src/screens/Search.tsx:203-211 | an absent id is appended; a present id is removed and the list gets shorter |
| Search.ToggleFavoriteFlips | src/screens/Search.tsx:203-211 | the heart flips its own id and no other |
| Search.ToggleFavoriteNoDup | src/screens/Search.tsx:203-211 | the heart never introduces a duplicate id |
| Search.ClearFilters | src/screens/Search.tsx:213-221 | all four selections are emptied and the query is erased; favourites stay |
| Search.MatchesSearch | src/screens/Search.tsx:224-225 | an empty query matches every pet, and a query longer than both name and breed matches none |
| Search.MatchesCategory | src/screens/Search.tsx:227-237 | see `Search.Matches` and `Search.FilteredIsSubsequence` |
| Search.Matches | src/screens/Search.tsx:224-241 | a pet matches exactly when it matches the query and the selection of every category |
| Search.HasActiveFilters | src/screens/Search.tsx:243 | a filter is active exactly when the query is not empty or some selection is not |
| Search.ClearShowsAll | src/screens/Search.tsx:213-243 | after clearing nothing is active and the whole catalog is shown |
| Search.Step | src/screens/Search.tsx:185-221 | the heart changes only the favourites, and every other event leaves the favourites alone |
| Search.InitialInvariant | src/screens/Search.tsx:18-25 | the screen on mount has no duplicate selection or favourite |
| Search.StepInvariant | src/screens/Search.tsx:185-221 | every event keeps the selections and the favourites duplicate-free |
| Search.RunInvariant | src/screens/Search.tsx:18-221 | every run of events keeps the invariant |
| Search.ReachableInvariant | src/screens/Search.tsx:18-221 | every screen reachable from mount has duplicate-free selections and favourites |
| Search.ResultsTitle | src/screens/Search.tsx:355 | the heading reads "n pet encontrado" exactly when n is 1, and "n pets encontrados" otherwise |
| FavoriteStore.IsFavorite | src/screens/FavoriteContext.tsx:42-44 | see `FavoriteStore.IsFavoriteIff` |
| FavoriteStore.IsFavoriteIff | src/screens/FavoriteContext.tsx:42-44 | an id is a favourite exactly when filtering it out changes the list, and then the list gets shorter |
| FavoriteStore.WithoutId | src/screens/FavoriteContext.tsx:27 | the filter leaves no entry with the id |
| FavoriteStore.WithoutIdKeepsOthers | src/screens/FavoriteContext.tsx:27 | the filter keeps exactly the entries with another id, in their order |
| FavoriteStore.Toggle | src/screens/FavoriteContext.tsx:23-32 | an absent pet is appended at the end; a present id is removed and the list gets shorter |
| FavoriteStore.TogglePresent | src/screens/FavoriteContext.tsx:25-27 | toggling a present pet removes every entry with its id and keeps the others in order |
| FavoriteStore.ToggleFlips | src/screens/FavoriteContext.tsx:23-44 | `isFavorite` flips for the toggled id and is unchanged for every other id |
| FavoriteStore.ToggleDistinct | src/screens/FavoriteContext.tsx:23-32 | toggling keeps the ids pairwise distinct |
| FavoriteStore.DistinctIdsOfSubsequence | src/screens/FavoriteContext.tsx:27 | removing entries keeps the ids distinct |
| FavoriteStore.ToggleTwiceFromAbsent | src/screens/FavoriteContext.tsx:23-32 | toggling an absent pet twice gives back the original list |
| FavoriteStore.ToggleTwiceMembership | src/screens/FavoriteContext.tsx:23-44 | toggling any pet twice restores which ids are favourites |
| FavoriteStore.Remove | src/screens/FavoriteContext.tsx:34-36 | no entry with the id remains, and the list is unchanged when the id was absent |
| FavoriteStore.RemoveKeepsOthers | src/screens/FavoriteContext.tsx:34-36 | removal keeps the other entries in order and the ids distinct |
| FavoriteStore.Clear | src/screens/FavoriteContext.tsx:38-40 | afterwards no id is a favourite |
| FavoriteStore.Example | src/screens/FavoriteContext.tsx:23-36 | toggling Tobby into an empty store and out again empties it; removing from an empty store is a no-op |

## Left out

- Rendering, styles, images, icons and navigation (`navigation.goBack()` / `navigate`) are left out; they carry no logic.
- Alert dialogs are values. The state after an accepted submit is the state the dialog's OK button produces, so pressing OK is assumed.
- Chat's `Date.now()` ids and `toLocaleTimeString` times are a `Stamp` parameter. Each one-second `setTimeout` is an entry of a first-in, first-out `pending` queue; a `Reply` event is its timer firing and posts the oldest entry. Scrolling the list is left out.
- Chat's `openWhatsApp` is left out: it only opens an external URL.
- `Text.Lower`: case folding covers ASCII A-Z and the Latin-1 capitals U+00C0..U+00DE (not U+00D7). The rest of Unicode's `toLowerCase` mapping is left out.
- `Text.Utf16Length`: strings are sequences of code points, so lone surrogates cannot be expressed.
- `handleInputChange(field, value)` takes a dynamic key. The model takes a field enum with the keys the screens pass. A key outside the form, which JavaScript would add as a new property, is left out.
- `useFavorites` throwing outside a provider, and the React context plumbing, are left out. App.tsx mounts no provider.
- The favourites list screen (src/screens/Favorites.tsx) is left out: it only confirms and calls `removeFavorite` / `clearFavorites`, which are modelled.
- The static catalog in src/data/Animals.ts is not part of this model. Search carries its own inline catalog, and that one is modelled.
- The show/hide password toggles, Search's filter option labels, and News's chip list are left out. The chip list is used only as data by `News.CategoriesCoverData`. Donation's payment-method buttons are the `ChooseMethod` event.
- Donation's four preset amounts (`predefinedAmounts`) are only rendered as buttons; `AmountSelect` takes any amount.
- The phone fields' `maxLength={15}` (src/screens/Volunteer.tsx:242, src/screens/TemporaryHome.tsx:210, src/screens/Register.tsx:175) is left out: the `TypePhone` events carry any text, as the handler itself accepts any. `Phone.Change` proves the field never needs more than 15 characters.
- `Phone.Mask` carries no contract of its own; `Phone.MaskShape` states its shape, and `Phone.MaskDigits` its digits.
- `Search.MatchesCategory` carries no contract of its own; `Search.Matches` ties it to the whole filter, and `Search.AbsentValueEmpties` and `Search.FilteredIsSubsequence` state what it selects.
- `FavoriteStore.IsFavorite` carries no contract of its own; `FavoriteStore.IsFavoriteIff` states it, and `FavoriteStore.ToggleFlips` how the toggle moves it.
