# XIVE iOS client: the logic behind the screens

XIVE is an iOS app for exhibition tickets that carry an NFC tag. The user signs in with
Kakao or Apple. Tapping a ticket reads an event or stamp token from the tag. The app then
registers the ticket with the XIVE API and shows the event's web page. That page talks back
to the app through JavaScript messages. The app also has an onboarding pager, a one-to-one
inquiry form, an account withdrawal form and a month calendar.

This project models the decisions the app makes around those screens, with their state
changes, in Dafny:

- **NFC tag text** (`NfcTag`, `NfcModel`):
  - unwrapping the tag's text record;
  - cutting the `stamp:`/`event:` token out of it;
  - trimming a stamp token;
  - the requests built from a tag, and the "request in progress" guard of the ticket
    request.
- **The event web page** (`WebBridge`):
  - the `nfcTagging` and `initWeb` scripts sent to the page;
  - the page's messages that show and hide the NFC button;
  - the reload trigger;
  - the drag rule for the navigation bar.
- **Inquiry form** (`Inquiry`): the email pattern, the 500-character content cap and
  counter, the submit flag, and the request body.
- **Withdrawal form** (`Withdrawal`): the agreement and six reason checkboxes, the
  reason-code table, the enable rule, the request body and the answer.
- **Onboarding** (`OnboardingState`, `Onboarding`): the three pages, their constants, and
  paging.
- **Login** (`Login`):
  - query parameters;
  - the session written to `UserDefaults`;
  - the Apple user's name;
  - the sorting of the server's answer;
  - the `isNew` flag.
- **Calendar** (`Gregorian`, `CalendarScreen`, `CalanderScreen`): the day list of a month,
  the first of a month, the date a tap selects, month stepping, and the deletable event
  list.

Shared modules:

- `Wrappers` holds `Option`.
- `Decimal` holds Swift's decimal rendering of integers and its inverse parser.
- `Store` holds `UserDefaults` as a map, the JSON values `JSONSerialization` yields, and
  the `as?` casts on them.

Where the app keeps state in an object or a SwiftUI view, the model is a class. Its fields
are the view's `@State`/`@Published` variables, and its methods are the button actions,
`onChange` handlers and completion handlers. Network replies, the parsing of a URL, the
encoding of a JSON body and whether a web view is on screen are passed to the methods as
parameters.

The calendar follows the code. Both calendar files list the days of a month as `1...n`
(`XIVE/UI/Calander/CalendarView.swift:67-70`, `XIVE/UI/Calander/Calander.swift:64-67`),
laid out seven to a row. There is no padding to a week-aligned grid, no choice of the
first weekday and no link between tickets and days.

## Model

| member | source | states |
|---|---|---|
| Decimal.NatToDecimal | XIVE/UI/home/WebView.swift:162 | the numeral of a natural number is non-empty, all digits, and has no leading zero |
| Decimal.NatToDecimalRoundTrip | XIVE/UI/home/WebView.swift:162 | reading back the numeral of n gives n |
| Decimal.IntToDecimal | XIVE/UI/onboarding/OnboardingInformationState.swift:17-19 | the decimal text of an integer is non-empty and starts with a minus sign exactly when the number is negative |
| Decimal.ParseInt | XIVE/UI/home/WebView.swift:162 | the parser accepts only non-empty text |
| Decimal.NonNegativeRoundTrip | XIVE/UI/home/WebView.swift:162 | parsing the numeral of a natural number gives it back |
| Decimal.NegativeRoundTrip | XIVE/UI/home/WebView.swift:162 | parsing a minus sign followed by the numeral of n gives -n |
| Decimal.IntToDecimalRoundTrip | XIVE/UI/home/WebView.swift:162 | parsing the decimal text of any integer gives that integer back |
| Decimal.IntToDecimalInjective | XIVE/UI/onboarding/OnboardingInformationState.swift:17-19 | distinct integers have distinct decimal texts |
| Store.StringFor | XIVE/UI/home/NFCViewModel.swift:99-100 | `string(forKey:)` answers exactly for a stored key: a string as it is, a number in decimal, a bool as "1" or "0" |
| Store.BoolFor | XIVE/UI/login/LoginViewModel.swift:29 | `bool(forKey:)` is false for a missing key and gives a stored bool as it is |
| Store.Tokens | XIVE/UI/home/NFCViewModel.swift:224-229 | the session tokens are available exactly when both `string(forKey:)` lookups answer, and then they are those two answers |
| Store.StringField | XIVE/UI/home/NFCViewModel.swift:123 | `json[key] as? String` succeeds exactly for a JSON string under that key, and gives that string |
| Store.IntField | XIVE/UI/home/NFCViewModel.swift:122 | `json[key] as? Int` succeeds exactly for a JSON integer under that key, and gives that integer |
| Store.BoolField | XIVE/UI/login/LoginViewModel.swift:135 | `json[key] as? Bool` succeeds exactly for a JSON bool under that key, and gives that bool |
| NfcTag.ExtractContent | XIVE/UI/home/NFCViewModel.swift:78-80 | a payload of three characters or fewer gives the empty text; a longer one is its first three characters followed by the result |
| NfcTag.ExtractContentOfTwoLetterRecord | XIVE/UI/home/NFCViewModel.swift:78-80 | for a Text record with a two-letter language code, the text comes back exactly |
| NfcTag.ExtractContentKeepsLongLanguageTail | XIVE/UI/home/NFCViewModel.swift:78-80 | for a longer language code, the code's tail after two letters is left in front of the text |
| NfcTag.FormatToken | XIVE/UI/home/NFCViewModel.swift:82-88 | the result is always a prefix of the input, and a token when the input starts with one |
| NfcTag.FormatTokenDropsSuffix | XIVE/UI/home/NFCViewModel.swift:82-86 | a token followed by anything gives exactly the 42-character token |
| NfcTag.FormatTokenKeepsOtherText | XIVE/UI/home/NFCViewModel.swift:87 | text not starting with a token comes back unchanged |
| NfcTag.FormatTokenIdempotent | XIVE/UI/home/NFCViewModel.swift:82-88 | formatting twice is formatting once |
| NfcTag.UpperCaseKindIsNoToken | XIVE/UI/home/NFCViewModel.swift:83 | the `stamp`/`event` prefix is matched case-sensitively: an upper-case kind is no token and passes through |
| NfcTag.HyphenateIsCanonical | XIVE/UI/home/NFCViewModel.swift:83 | 32 hex digits grouped 8-4-4-4-12 with hyphens match the UUID part of the pattern, and removing the hyphens gives the digits back |
| NfcTag.CanonicalIsHyphenated | XIVE/UI/home/NFCViewModel.swift:83 | every match of the UUID part is 32 hex digits hyphenated 8-4-4-4-12 |
| NfcTag.LeadingWhitespace | XIVE/UI/home/NFCViewModel.swift:142 | counts the whitespace a text starts with; the next character, if any, is not whitespace |
| NfcTag.TrailingWhitespace | XIVE/UI/home/NFCViewModel.swift:142 | counts the whitespace a text ends with; the character before, if any, is not whitespace |
| NfcTag.Trim | XIVE/UI/home/NFCViewModel.swift:142 | the trimmed text is the input with whitespace removed from both ends only, and neither end of it is whitespace |
| NfcTag.TrimKeepsTrimmed | XIVE/UI/home/NFCViewModel.swift:142 | text without whitespace at its ends is not changed |
| NfcTag.TrimIdempotent | XIVE/UI/home/NFCViewModel.swift:142 | trimming twice is trimming once |
| NfcTag.TrimKeepsLineBreaks | XIVE/UI/home/NFCViewModel.swift:142 | a leading line break is not trimmed (`.whitespaces` excludes newlines) |
| NfcTag.StampTaggingRequest | XIVE/UI/home/NFCViewModel.swift:141-174 | a stamp request goes out exactly when both session tokens are stored, carrying the trimmed token and those tokens |
| NfcTag.StampIdOfReply | XIVE/UI/home/NFCViewModel.swift:176-207 | the completion gets a stamp id exactly when the reply is a JSON object with an integer `stampId`, and gets that integer |
| NfcModel.TicketRequestBody | XIVE/UI/home/NFCViewModel.swift:235-237 | the ticket request body has the single key `eventId`, holding the event id |
| NfcModel.NfcViewModel.constructor | XIVE/UI/home/NFCViewModel.swift:28-33 | a new view model restores the saved event page URL, with no request in progress |
| NfcModel.NfcViewModel.SetEventWebUrl | XIVE/UI/home/NFCViewModel.swift:18-24 | assigning the event page URL saves a non-nil value under `eventWebUrl` and leaves the store alone for nil |
| NfcModel.NfcViewModel.HandleDetectedUrl | XIVE/UI/home/NFCViewModel.swift:35-41 | records the URL; the event request goes out exactly when the tokens are stored, with the formatted token |
| NfcModel.NfcViewModel.SendTicketData | XIVE/UI/home/NFCViewModel.swift:211-249 | does nothing while a request is in progress; otherwise raises the flag, and lowers it again when the tokens are missing or the body does not encode; the flag stays up exactly while a request is out |
| NfcModel.NfcViewModel.OnTicketReply | XIVE/UI/home/NFCViewModel.swift:248-280 | whatever the reply, the flag is lowered; a string `eventWebUrl` and an integer `ticketId` are taken over, and anything else leaves them unchanged |
| NfcModel.NfcViewModel.OnEventDetailsReply | XIVE/UI/home/NFCViewModel.swift:109-128 | only a JSON object with an integer `eventId` and a string `eventWebUrl` publishes the URL and saves it under `eventWebUrl`; the ticket request for that `eventId` is then skipped exactly when one was in progress, reports missing tokens or a failed encoding, and is otherwise sent with that event id |
| Inquiry.FirstIndexOf | XIVE/UI/Setting/OneToOneView.swift:171 | finds the first occurrence of a character, or reports that there is none |
| Inquiry.LastIndexOf | XIVE/UI/Setting/OneToOneView.swift:171 | finds the last occurrence of a character, or reports that there is none |
| Inquiry.ValidEmailSplits | XIVE/UI/Setting/OneToOneView.swift:170-174 | every accepted email is local part, `@`, domain, `.`, and a top-level domain of 2 to 64 letters |
| Inquiry.SplitEmailIsValid | XIVE/UI/Setting/OneToOneView.swift:170-174 | every string of that shape is accepted |
| Inquiry.IsValidEmailMatchesPattern | XIVE/UI/Setting/OneToOneView.swift:170-174 | the email check accepts exactly the strings the whole-string pattern matches |
| Inquiry.IsValidEmail | XIVE/UI/Setting/OneToOneView.swift:170-174 | an accepted address contains an `@` and is at least six characters long |
| Inquiry.NoEmailWithoutAt | XIVE/UI/Setting/OneToOneView.swift:171 | a string without `@`, the empty string included, is not an email |
| Inquiry.Truncate | XIVE/UI/Setting/OneToOneView.swift:96-98 | the cut content is a prefix of at most 500 characters, equal to the content when that fits, and exactly 500 long otherwise |
| Inquiry.TruncateIdempotent | XIVE/UI/Setting/OneToOneView.swift:97 | cutting twice is cutting once |
| Inquiry.CounterLabel | XIVE/UI/Setting/OneToOneView.swift:57 | the counter ends in `/500` and the text before it reads as the content's length |
| Inquiry.EnabledMeansWellFormed | XIVE/UI/Setting/OneToOneView.swift:166-168 | an enabled submit button means a pattern-matching email and 1 to 500 characters of content |
| Inquiry.SubmitDisabled | XIVE/UI/Setting/OneToOneView.swift:166-168 | an empty email, empty content or content over 500 characters disables the button; an enabled one has content of 1 to 500 characters |
| Inquiry.InquiryBody | XIVE/UI/Setting/OneToOneView.swift:143-146 | the inquiry body has exactly the keys `email` and `contents`, holding the two field values |
| Inquiry.InquiryForm.constructor | XIVE/UI/Setting/OneToOneView.swift:13-15 | the form starts empty with the submit button disabled |
| Inquiry.InquiryForm.ValidateForm | XIVE/UI/Setting/OneToOneView.swift:166-168 | the button is disabled exactly when the email is empty or invalid, or the content is empty or over 500 characters |
| Inquiry.InquiryForm.EditEmail | XIVE/UI/Setting/OneToOneView.swift:75-79 | an email edit revalidates the form and touches nothing else |
| Inquiry.InquiryForm.EditContent | XIVE/UI/Setting/OneToOneView.swift:94-99 | a content edit leaves the content cut to 500 characters, and the submit flag agrees with the cut content |
| Inquiry.InquiryForm.SendInquiry | XIVE/UI/Setting/OneToOneView.swift:126-146 | the inquiry goes out exactly when the session tokens are stored, with the form's body |
| Withdrawal.ReasonOption | XIVE/UI/Setting/WithdrawalView.swift:162-172 | indices 0 to 4 give `OPTION1` to `OPTION5`, 5 gives `OTHER_OPTION`, any other index gives `NONE` |
| Withdrawal.ReasonIndex | XIVE/UI/Setting/WithdrawalView.swift:162-172 | a code names one of the six reasons, if any |
| Withdrawal.ReasonOptionRoundTrip | XIVE/UI/Setting/WithdrawalView.swift:162-172 | the code of each reason names that reason, and an index outside the six has no reason |
| Withdrawal.ReasonOptionInjective | XIVE/UI/Setting/WithdrawalView.swift:162-172 | the six reasons have six distinct codes |
| Withdrawal.SelectedReason | XIVE/UI/Setting/WithdrawalView.swift:194 | the lowest checked index when a reason is checked, and 0 otherwise |
| Withdrawal.WithdrawalBody | XIVE/UI/Setting/WithdrawalView.swift:194-201 | the body has exactly the keys `withdrawalOption` and `content`; the option is the selected reason's code, and the content is the free text for `OTHER_OPTION` and `NONE` otherwise |
| Withdrawal.FreeTextOnlyForOtherAlone | XIVE/UI/Setting/WithdrawalView.swift:194-196 | the option is `OTHER_OPTION` exactly when reason 5 is checked and no reason before it is |
| Withdrawal.SubmittedOptionIsChecked | XIVE/UI/Setting/WithdrawalView.swift:194-195 | with a reason checked, the option sent names a checked reason |
| Withdrawal.WithdrawalForm.constructor | XIVE/UI/Setting/WithdrawalView.swift:13-16 | the form starts with six unchecked reasons, no agreement, the reasons hidden and no free text |
| Withdrawal.WithdrawalForm.ToggleAgreement | XIVE/UI/Setting/WithdrawalView.swift:55-57 | flips the agreement and shows the reasons exactly when it is now checked, keeping the reason section tied to the agreement |
| Withdrawal.WithdrawalForm.ShowsOtherReasonField | XIVE/UI/Setting/WithdrawalView.swift:67-101 | the free-text field shows exactly when the agreement and reason 5 are both checked |
| Withdrawal.WithdrawalForm.OtherReasonFieldNeedsAgreement | XIVE/UI/Setting/WithdrawalView.swift:67-101 | without the agreement the free-text field is hidden, whatever reason 5 says |
| Withdrawal.WithdrawalForm.ToggleReason | XIVE/UI/Setting/WithdrawalView.swift:90-92 | flips the chosen reason and leaves the other five unchanged |
| Withdrawal.WithdrawalForm.CanWithdraw | XIVE/UI/Setting/WithdrawalView.swift:174-176 | the button is enabled exactly when the agreement and at least one reason are checked |
| Withdrawal.WithdrawalForm.Withdraw | XIVE/UI/Setting/WithdrawalView.swift:178-201 | the withdrawal goes out exactly when the session tokens are stored, with the body of the current checkboxes |
| Withdrawal.WithdrawalReply | XIVE/UI/Setting/WithdrawalView.swift:209-227 | only a status-200 answer with data stores `isLoggedIn = false` and leads to the login screen; any other answer changes nothing |
| OnboardingState.AllCases | XIVE/UI/onboarding/OnboardingInformationState.swift:11-15 | there are three distinct pages |
| OnboardingState.RawValue | XIVE/UI/onboarding/OnboardingInformationState.swift:11-15 | a page's raw value is its position in `allCases` |
| OnboardingState.FromRawValue | XIVE/UI/onboarding/OnboardingInformationState.swift:11 | a raw value names a page exactly when it is 0, 1 or 2 |
| OnboardingState.RawValueRoundTrip | XIVE/UI/onboarding/OnboardingInformationState.swift:11-15 | raw values and pages convert back and forth without loss |
| OnboardingState.Id | XIVE/UI/onboarding/OnboardingInformationState.swift:17-19 | the id reads back as the raw value |
| OnboardingState.IdInjective | XIVE/UI/onboarding/OnboardingInformationState.swift:17-19 | distinct pages have distinct ids |
| OnboardingState.LottieFileName | XIVE/UI/onboarding/OnboardingInformationState.swift:55-64 | page n (counting from 1) plays `Onboarding_n` |
| OnboardingState.Width | XIVE/UI/onboarding/OnboardingInformationState.swift:66-75 | the frame is 400 wide on the first two pages and 520 on the third |
| OnboardingState.Height | XIVE/UI/onboarding/OnboardingInformationState.swift:77-86 | the frame is 400 high on the first two pages and 300 on the third |
| OnboardingState.HeaderText | XIVE/UI/onboarding/OnboardingInformationState.swift:88-93 | no page has a header |
| Onboarding.Next | XIVE/UI/onboarding/OnboardingViewModel.swift:15-22 | before the last page, the next page of `allCases` with `isLastPage` kept; on the last page, the same page with `isLastPage` raised |
| Onboarding.NextIsMonotone | XIVE/UI/onboarding/OnboardingViewModel.swift:15-22 | paging never goes back and never lowers `isLastPage` |
| Onboarding.NextRaisesLastPageOnlyOnThird | XIVE/UI/onboarding/OnboardingViewModel.swift:19-21 | `isLastPage` is raised by a press on the third page and by nothing else |
| Onboarding.WalkThrough | XIVE/UI/onboarding/OnboardingViewModel.swift:13-22 | from a fresh start, two presses reach the third page without finishing, and three or more presses finish on it |
| Onboarding.OnboardingViewModel.constructor | XIVE/UI/onboarding/OnboardingViewModel.swift:12-13 | the pager starts on the given page, not finished |
| Onboarding.OnboardingViewModel.MoveToNext | XIVE/UI/onboarding/OnboardingViewModel.swift:15-22 | one press moves the page and the flag exactly as `Next` does |
| Onboarding.OnboardingViewModel.TabSelection | XIVE/UI/onboarding/OnboardingViewModel.swift:27-28 | the binding reads the current page |
| Onboarding.OnboardingViewModel.SetTabSelection | XIVE/UI/onboarding/OnboardingViewModel.swift:29-31 | the binding's setter puts exactly the given page and leaves `isLastPage` alone |
| WebBridge.NfcTaggingRoundTrip | XIVE/UI/home/WebView.swift:162 | the page reads back exactly the stamp id put into `nfcTagging(…);` |
| WebBridge.NfcTaggingCommand | XIVE/UI/home/WebView.swift:162 | the script starts with `nfcTagging(` and ends with `);`, with something in between |
| WebBridge.InitWebDeterminesQuoteFreeValues | XIVE/UI/home/WebView.swift:275 | as long as no value holds a single quote, the `initWeb` script determines its four values |
| WebBridge.InitWebCommand | XIVE/UI/home/WebView.swift:275 | the script starts with `initWeb('`, ends with `', true);` and is 30 characters longer than its four values together |
| WebBridge.InitWebQuoteShiftsArguments | XIVE/UI/home/WebView.swift:275 | the values are not escaped: a quote in a value moves the argument boundaries, so two different value tuples give one script |
| WebBridge.WebScreen.constructor | XIVE/UI/home/WebView.swift:13-22 | the screen starts with the bars, the error view and the NFC button hidden, no stamp id, and no trigger recorded |
| WebBridge.WebScreen.LoadRequest | XIVE/UI/home/WebView.swift:227-235 | a URL that parses starts a load; one that does not raises the error view |
| WebBridge.WebScreen.MakeUIView | XIVE/UI/home/WebView.swift:194-205 | creating the web view loads once without recording the trigger; the error view shows exactly when it already did or the URL does not parse |
| WebBridge.WebScreen.UpdateUIView | XIVE/UI/home/WebView.swift:207-221 | loads only for a trigger other than the recorded one, then records it; a reload shows the error view when the URL does not parse, otherwise the error view is unchanged; re-sends `nfcTagging` on every update while a stamp id is set |
| WebBridge.WebScreen.ReloadWebView | XIVE/UI/home/WebView.swift:179-182 | hides the error view and installs a trigger different from the old one and from the recorded one, so the next update loads |
| WebBridge.WebScreen.HandleJavaScriptMessage | XIVE/UI/home/WebView.swift:253-266 | `"1"` and `"3"` show the NFC button, `"2"` hides it, anything else leaves it |
| WebBridge.WebScreen.ReceiveScriptMessage | XIVE/UI/home/WebView.swift:246-251 | only string messages to `iosHandler` reach the handler |
| WebBridge.WebScreen.DidFinishNavigation | XIVE/UI/home/WebView.swift:270-291 | a finished load runs `initWeb` with the stored tokens (empty when missing), then `nfcTagging` exactly when a stamp id is present |
| WebBridge.WebScreen.DidFailNavigation | XIVE/UI/home/WebView.swift:293-301 | a failed load shows the error view |
| WebBridge.WebScreen.OnStampTagged | XIVE/UI/home/WebView.swift:91-111 | a received stamp id is stored; a changed id is sent to the page when the web view is found; a failed tag changes nothing |
| WebBridge.WebScreen.Drag | XIVE/UI/home/WebView.swift:54-63 | a downward drag shows the bars, an upward drag hides them, and no vertical movement leaves them |
| Login.LastNamed | XIVE/UI/login/LoginViewModel.swift:203-205 | finds the last query item with a given name, or reports that there is none |
| Login.Assign | XIVE/UI/login/LoginViewModel.swift:204 | assigning an item enters its name exactly when it has a value, with that value, and leaves every other name as it was |
| Login.FoldQuery | XIVE/UI/login/LoginViewModel.swift:203-205 | every entry of the folded dictionary comes from an item with that name and that value |
| Login.FoldQueryLastWins | XIVE/UI/login/LoginViewModel.swift:203-205 | a name has an entry exactly when its last item has a value, and the entry is that value; an item without a value removes the name |
| Login.QueryParameters | XIVE/UI/login/LoginViewModel.swift:198-207 | no query items give nil; otherwise the loop builds the fold of the items |
| Login.AppleFullName | XIVE/UI/login/LoginViewModel.swift:166-171 | with both name parts, the given name, one space, then the family name; otherwise the saved name, or the empty string |
| Login.AppleFullNameSplits | XIVE/UI/login/LoginViewModel.swift:168 | a given name without spaces and the family name can be read back from the composed name |
| Login.ClassifyLoginReply | XIVE/UI/login/LoginViewModel.swift:74-86 | a transport error fails without a code; a status outside 200–299 fails with it; otherwise data succeeds; with no data the completion is never called |
| Login.IsNewUserOf | XIVE/UI/login/LoginViewModel.swift:135 | the user is new exactly when the reply holds `isNew` as the bool `true` |
| Login.LoginViewModel.constructor | XIVE/UI/login/LoginViewModel.swift:23-35 | a saved `isLoggedIn` authorizes the user at start |
| Login.LoginViewModel.SaveLoginState | XIVE/UI/login/LoginViewModel.swift:37-43 | always writes the flag and the login method, writes the name only when given, and leaves every other key alone |
| Login.LoginViewModel.SaveTokens | XIVE/UI/login/LoginViewModel.swift:45-52 | writes each token only when present and leaves every other key alone |
| Login.LoginViewModel.OnLoginSuccess | XIVE/UI/login/LoginViewModel.swift:130-136 | a successful login stores the string tokens of the reply and keeps the stored token for each one the reply lacks, leaves every other key alone, sets the new-user flag from the reply, and authorizes |
| Login.LoginViewModel.AppleSignedIn | XIVE/UI/login/LoginViewModel.swift:159-189 | Apple sign-in saves the composed name with the `apple` method, leaves every other key (the tokens among them) alone, posts code, token, name and email, and authorizes before the server answers |
| Login.LoginViewModel.KakaoUserFetched | XIVE/UI/login/LoginViewModel.swift:122-128 | saves the nickname (or "Kakao User") with the `kakao` method, leaves every other key (the tokens among them) alone, and posts the Kakao access token |
| Gregorian.IsLeapYear | XIVE/UI/Calander/CalendarView.swift:68 | a leap year is divisible by 4, and a century year is one exactly when divisible by 400 |
| Gregorian.DaysInMonth | XIVE/UI/Calander/CalendarView.swift:68 | a month has 28 to 31 days, and 28 exactly for February of a common year |
| Gregorian.DaysInMonthBounds | XIVE/UI/Calander/CalendarView.swift:68 | months have 28 to 31 days; February has 29 exactly in leap years; the 30-day months are April, June, September and November |
| Gregorian.YearLength | XIVE/UI/Calander/CalendarView.swift:68 | the twelve month lengths add up to 366 in leap years and 365 otherwise |
| Gregorian.GenerateDaysInMonth | XIVE/UI/Calander/CalendarView.swift:67-70 | the list has one entry per day of the month, and entry i is i + 1 |
| Gregorian.GenerateDaysInMonthIsTheMonth | XIVE/UI/Calander/Calander.swift:64-67 | a number is in the list exactly when it is a day of the month; the list is strictly increasing and 28 to 31 long |
| Gregorian.StartOfMonth | XIVE/UI/Calander/CalendarView.swift:100-105 | keeps the year and month and sets the day to 1 |
| Gregorian.StartOfMonthIdempotent | XIVE/UI/Calander/Calander.swift:91-95 | the first of the first of a month is the first of that month |
| Gregorian.NextDay | XIVE/UI/Calander/CalendarView.swift:34 | the day after a valid date is a valid date |
| Gregorian.AddDays | XIVE/UI/Calander/CalendarView.swift:34 | adding days to a valid date gives a valid date |
| Gregorian.AddDaysFromFirst | XIVE/UI/Calander/CalendarView.swift:33-35 | adding k days to the first of a month gives day k + 1 of that month, for k below its length |
| Gregorian.AddMonths | XIVE/UI/Calander/CalendarView.swift:46-54 | stepping a month by any count gives a valid month |
| Gregorian.AddMonthsToDate | XIVE/UI/Calander/Calander.swift:44-52 | stepping a date by months lands in the stepped month and keeps the day, unless the day is too late for that month, in which case it gives the month's last day |
| Gregorian.MonthSteps | XIVE/UI/Calander/CalendarView.swift:46-54 | one step forward is the next month (December to January of the next year), one back is the previous month, and each undoes the other |
| Gregorian.MonthStepsOnDates | XIVE/UI/Calander/CalendarView.swift:46-54 | on dates, the `>` and `<` steps move to the next and previous month, forward then back returns to the same month, and to the same date up to day 28 |
| Gregorian.MonthStepClampsDay | XIVE/UI/Calander/CalendarView.swift:46-54 | January 31st stepped forward is the last of February, and stepped back from there is January 28th or 29th |
| CalendarScreen.CalendarView.constructor | XIVE/UI/Calander/CalendarView.swift:11-12 | the screen opens on today's month with nothing selected |
| CalendarScreen.CalendarView.TapDay | XIVE/UI/Calander/CalendarView.swift:32-36 | tapping day d selects day d of the month on show |
| CalendarScreen.CalendarView.ShowPreviousMonth | XIVE/UI/Calander/CalendarView.swift:46-48 | `<` shows the previous month |
| CalendarScreen.CalendarView.ShowNextMonth | XIVE/UI/Calander/CalendarView.swift:52-54 | `>` shows the next month |
| CalanderScreen.CalendarView.constructor | XIVE/UI/Calander/Calander.swift:11-13 | the screen opens on today's month with nothing selected and the sheet closed |
| CalanderScreen.CalendarView.TapDay | XIVE/UI/Calander/Calander.swift:33-36 | tapping day d selects day d of the month on show and opens the event sheet |
| CalanderScreen.CalendarView.ShowPreviousMonth | XIVE/UI/Calander/Calander.swift:44-46 | `<` shows the previous month |
| CalanderScreen.CalendarView.ShowNextMonth | XIVE/UI/Calander/Calander.swift:50-52 | `>` shows the next month |
| CalanderScreen.KeptIndices | XIVE/UI/Calander/Calander.swift:87 | the positions not deleted lie inside the list |
| CalanderScreen.KeptIndicesAreTheKept | XIVE/UI/Calander/Calander.swift:87 | no kept position is an offset, every position that is not an offset is kept, and the kept positions are in increasing order |
| CalanderScreen.KeptCount | XIVE/UI/Calander/Calander.swift:87 | every position of the list is either kept or deleted |
| CalanderScreen.RemoveOffsets | XIVE/UI/Calander/Calander.swift:86-88 | `remove(atOffsets:)` keeps exactly the elements at the kept positions, in their order |
| CalanderScreen.RemoveOffsetsLength | XIVE/UI/Calander/Calander.swift:86-88 | the list shrinks by the number of offsets inside it |
| CalanderScreen.RemoveNoOffsets | XIVE/UI/Calander/Calander.swift:86-88 | deleting no positions of the list leaves it unchanged |
| CalanderScreen.EventDetailView.constructor | XIVE/UI/Calander/Calander.swift:70-72 | the event list starts with exactly the three placeholder events |
| CalanderScreen.EventDetailView.Delete | XIVE/UI/Calander/Calander.swift:86-88 | deleting removes exactly the rows at the offsets, keeps the rest in order, and shrinks the list by the number of offsets |

## Left out

- HTTP: every `URLSession` request is left out, and so are the URLs it is sent to. The model keeps what is decided before a request (its body, and whether it is sent at all) and what is decided from the reply. Replies are a parameter: a transport error, no data, or a body that is or is not a JSON object.
- Foundation parsers: `JSONSerialization`, `URLComponents` and the `NSPredicate`/regular-expression engines are not modelled. Their languages are written as predicates over characters: the token pattern, the email pattern and the query items. Whether a URL string parses and whether a body encodes are parameters.
- NSNumber bridging: the `as?` casts in `Store` are strict. A JSON number never passes as a `Bool`, and a JSON bool never passes as an `Int`, although `NSNumber` bridging can allow both.
- Store.BoolFor: a stored string reads as false, whereas Foundation's `bool(forKey:)` reads "YES", "true" and non-zero numerals as true. The app writes `isLoggedIn`, the only key it reads with `bool(forKey:)`, as a `Bool` and never as a string.
- CoreNFC: reader sessions, the `didDetectNDEFs` loop over messages and records, the UTF-8 decoding of payloads, NotificationCenter posts, and the saved `ticketTaggedDate`. `ExtractContent` and `FormatToken` receive the decoded text.
- Third-party SDKs: the Kakao SDK and AuthenticationServices. Their results become method parameters (`KakaoUserFetched`, `AppleSignedIn`). The completions of the login POST are `OnLoginSuccess` and `ClassifyLoginReply`. SettingViewModel consists only of such calls and is not part of this model.
- Threading: `DispatchQueue.main.async` hops and animations. Updates are taken as immediate and in program order. The `defer` that lowers the ticket flag and the main-queue field updates are one step in `OnTicketReply`.
- NfcModel.NfcViewModel.SendTicketData: the `guard` on line 219 returns with the flag still raised when the fixed ticket URL does not parse. That URL is a constant that parses, so this path is not modelled.
- Gregorian.AddMonthsToDate: Foundation's month addition can fail, and then the buttons keep the old month (`?? currentMonth`). On the proleptic Gregorian calendar used here the addition never fails, so that fallback is not modelled.
- Foundation calendar: `Calendar.current` is taken to be the proleptic Gregorian calendar. Time of day, time zones and locales are not modelled. `currentMonth` is a date whose day is kept and clamped as Foundation does; only its year and month are ever read. The `Date()` defaults (today, and `selectedDate ?? Date()` for the detail view) come in as the constructor's parameter.
- Rendering: the formatted titles ("yyyy년 MM월", the long date style), the grid layout, colours, the onboarding `text`/`subtext` strings, `reasonText` and the placeholder texts are not modelled. `CalendarView.swift`'s `EventDetailView` only draws three fixed lines and is not modelled.
- Floats: the drag translation is taken as an integer, since only its sign is used. The onboarding widths and heights are whole numbers.
- Strings: Swift counts grapheme clusters; the model counts `char`s. The 500-character cap and the counter are exact only for text where the two agree.
- OnboardingModel is not part of this model. `OnboardingViewModel`'s constructor takes the page that model starts on.
- XIVE/UI/home/TicketDetailView.swift is commented out in full and is not part of this model.
- Both calendar files declare `CalendarView`, `EventDetailView` and `Date.startOfMonth`. They are modelled as two separate screens (`CalendarScreen`, `CalanderScreen`).
- In `Calander.swift`, `EventDetailView.delete` updates a `var` of a struct from a non-mutating method. The model makes the view a class whose `Delete` updates its list, which is what the code evidently means. The list's own state is what the model tracks.
- `OneToOneView`'s and `WithdrawalView`'s replies are only logged; apart from `WithdrawalReply`, they change nothing and are not modelled.
