# xbar menu-bar plugins — a Dafny model

This project models a small collection of xbar (formerly BitBar) plugins. Each
plugin is a script that fetches data and prints a menu. The first line printed
is the menu-bar title, `---` lines separate entries, and `| key=value`
suffixes set colour, size and link. The model covers these scripts:

- `github-pending-prs.py` (module `PendingPrs`): the author's open pull requests.
  It sorts each PR's reviewers into pending, approved, commented and
  changes-requested, adds CI and draft/blocked markers, and sets a title colour
  from the PR count.
- `github-review-requests.py` (module `ReviewRequests`): open pull requests that
  are waiting for the user's review.
- Both Python scripts share the same colour scale, from green to amber to red,
  driven by the item count (module `HealthColour`). They also share the
  elapsed-time value `timedelta` (module `TimeDelta`) and the decoded GraphQL
  search reply (module `GraphQl`). In that reply a key is absent, `null` or
  present. Python's `.get` chain maps an absent key to no edges and raises on a
  `null`, so each script ends with no reply, an exception, or its records.
- `jira-support-tickets.js` (module `SupportTickets`):
  - it validates the configuration;
  - it collects every queue's issues, page by page (`isLastPage`);
  - it turns them into tickets and sorts them by priority;
  - it prints one block per ticket with a status colour and a relative age.
- `weather-forecast.1m.js` (module `WeatherForecast`):
  - an icon table;
  - first-letter capitalisation;
  - the "today" filter;
  - the grouping that keeps one midday forecast per day, for at most five days.
- `jira-attendance-support-tickets.1m.rb` (module `AttendanceTickets`): it adds
  up the sizes of two queues, concatenates their tickets and prints one line per
  ticket. A failed queue request hands back its raw body, and the concatenation
  then raises.
- `jira_client.rb` (module `JiraClientModel`, class `JiraClient`):
  - domain normalisation;
  - the Basic credentials, which are the standard Base64 of `email:token`
    (section 4 of RFC 4648, module `Base64`, with a decoder and a proved round
    trip);
  - the Authorization header;
  - the queue URI;
  - the "success means the status code starts with 20" reply rule.

Shared helpers live in `Wrappers` (Option), `Strings` and `Sequences`:
- `Strings` has decimal and hex rendering with their parsers, Python's
  `str.join` and Python's `str.strip`.
- `Sequences` has order-preserving de-duplication and flat-map.

Every printed menu is modelled as the sequence of lines the script prints.

## Model

| member | source | states |
|---|---|---|
| PendingPrs.ParseDateCases | github-pending-prs.py:81-99 | days when days > 0 (plural from 2); otherwise, for any positive seconds, the truncated hour count followed by "hour" (plural from 7200 s); empty for a zero delta |
| PendingPrs.ParseDateUnderAnHour | github-pending-prs.py:85-93 | 90 seconds prints "0 hour": true division makes `hours` a positive fraction, which `%d` truncates |
| PendingPrs.ParseDate | github-pending-prs.py:81-99 | definition; its cases are in `ParseDateCases` |
| PendingPrs.RequestedLoginsAppend | github-pending-prs.py:124-126 | collecting requested logins distributes over concatenation of the request list |
| PendingPrs.RequestedLoginsShape | github-pending-prs.py:125-126 | a single request contributes its login exactly when it names a user reviewer, and nothing for a null or team reviewer |
| PendingPrs.RequestedLoginsMembers | github-pending-prs.py:124-126 | a login is pending iff a user reviewer with that login was requested |
| PendingPrs.QualifyingLoginsMembers | github-pending-prs.py:127-134 | a login qualifies for a state iff some review by that login has the state and the login is not excluded |
| PendingPrs.CategoryStep | github-pending-prs.py:129-134 | one review appends its login to a category exactly when it has the state, is not excluded and is not already listed |
| PendingPrs.CategorizeReviewers | github-pending-prs.py:120-134 | the loop yields the requested logins, plus the de-duplicated approvers not pending, commenters and change-requesters |
| PendingPrs.CategoryProperties | github-pending-prs.py:127-134 | each category is duplicate-free, in first-review order, and holds exactly the qualifying logins |
| PendingPrs.ApprovedExcludesPending | github-pending-prs.py:129 | an approver who is still a requested reviewer is never listed as approved |
| PendingPrs.CategoriesOverlap | github-pending-prs.py:129-134 | the comment and change categories are independent: one login can appear in both, and in approved too |
| GraphQl.Edges | github-pending-prs.py:106-109 | definition of the `.get` chain and the loop over it; its cases are in `GraphQl.EdgesCases` |
| GraphQl.EdgesCases | github-pending-prs.py:106-109 | a null `data`, `search` or `edges` raises (an error reply has `"data": null`); an absent key means no edges; present values give the edges themselves |
| PendingPrs.Reviews | github-pending-prs.py:127-128 | the reviews have their logins iff every review author is non-null, one per review node, in order |
| PendingPrs.CiState | github-pending-prs.py:117-119 | definition: the last commit's rollup state, none without commits or rollup |
| PendingPrs.GetPendingRequests | github-pending-prs.py:101-149 | no reply gives no result; a null `data`, `search` or `edges`, or a review with a null author, raises; otherwise one record per search edge in order, each field copied or derived as the loop body does |
| PendingPrs.RaisesCases | github-pending-prs.py:106-128 | an error reply and a review by a deleted account raise; a reply without `data` and an empty search do not |
| PendingPrs.GlyphConditions | github-pending-prs.py:187-191 | the warning shows iff some PR has change requests or a failed CI; the hourglass shows iff some CI is pending |
| PendingPrs.SummaryLineGlyphs | github-pending-prs.py:187-195 | the title line is `#<count>`, then the warning and hourglass glyphs when their conditions hold, then the colour for that count |
| PendingPrs.SummaryLine | github-pending-prs.py:187-195 | definition; its layout is in `SummaryLineGlyphs` |
| PendingPrs.CiIconUnknownState | github-pending-prs.py:208-209 | a non-empty CI state outside the icon table prints a lone space |
| PendingPrs.TitleLine | github-pending-prs.py:206-212 | definition; properties in `TitleLineEnd` and `TitleIsNotCelebration` |
| PendingPrs.SubtitleText | github-pending-prs.py:214-224 | definition; properties in `SubtitleShown` |
| PendingPrs.Render | github-pending-prs.py:195-227 | definition; properties in `RenderShape` and the `Render…` lemmas below |
| PendingPrs.RenderEmpty | github-pending-prs.py:195-198 | with no PRs the menu is exactly the green `#0` title, a separator and the celebration line |
| PendingPrs.SubtitleShown | github-pending-prs.py:214-225 | the subtitle line appears iff some reviewer category is non-empty; there is at most one |
| PendingPrs.PrBlockShape | github-pending-prs.py:200-227 | a PR block opens with its title line, optionally has the subtitle, and closes with a separator |
| PendingPrs.BlocksShape | github-pending-prs.py:200-227 | the blocks take between 2 and 3 lines per PR and end with a separator when there are PRs |
| PendingPrs.TitleLineEnd | github-pending-prs.py:211-212 | the stripped title line still ends with its `size=16` suffix |
| PendingPrs.RenderOfEmpty | github-pending-prs.py:195-198 | the empty menu is title, separator, celebration line |
| PendingPrs.RenderOfNonEmpty | github-pending-prs.py:195-227 | a non-empty menu is title, separator, then the PR blocks in order, with no celebration line |
| PendingPrs.RenderNonEmptyEnds | github-pending-prs.py:195-227 | a non-empty menu ends with a separator and has between 4 and 2 + 3n lines |
| PendingPrs.RenderThirdLine | github-pending-prs.py:197-212 | in a non-empty menu the third line is the first PR's title |
| PendingPrs.TitleIsNotCelebration | github-pending-prs.py:198-212 | no PR title line can be mistaken for the celebration line |
| PendingPrs.RenderShape | github-pending-prs.py:195-227 | the celebration line is third iff there are no PRs; the last line is a separator iff there are PRs |
| HealthColour.Clamp | github-pending-prs.py:174 | the count is capped at 10 (`min(len, 10)`) |
| HealthColour.Blend | github-pending-prs.py:181-183 | definition; properties in `BlendIsTruncatedRealBlend` and `BlendMonotone` |
| HealthColour.BlendIsTruncatedRealBlend | github-pending-prs.py:181-185 | the integer blend equals `int()` of the script's real-valued `start + k/10 * (end - start)` |
| HealthColour.Channels | github-pending-prs.py:177-185 | each channel lies between its amber and red end points and is a byte |
| HealthColour.Colour | github-pending-prs.py:174-185 | the colour is `#` followed by six hex digits |
| HealthColour.ColourCarriesChannels | github-pending-prs.py:185 | parsing the printed colour back gives the blended channels (`%02x` loses nothing) |
| HealthColour.ColourEnds | github-pending-prs.py:175-185 | zero items give `#00a357`; ten or more give `#e55353` |
| HealthColour.BlendMonotone | github-pending-prs.py:181-183 | the blend moves monotonically from start to end as the count grows |
| HealthColour.ChannelsMonotone | github-review-requests.py:134-142 | more items never make the colour less red: red and green fall, blue rises |
| ReviewRequests.ParseDateLargestUnit | github-review-requests.py:61-79 | whole days (plural above 1) when days > 0; under a day, with Python 2 integer division, the largest unit that fits (hours, minutes or seconds) with its count, plural above 1; empty iff nothing elapsed |
| ReviewRequests.ParseDateExamples | github-review-requests.py:65-77 | 90 s gives "1 minute", 3700 s gives "1 hour", zero gives "" |
| ReviewRequests.ParseDate | github-review-requests.py:61-79 | definition; its cases are in `ParseDateLargestUnit` |
| ReviewRequests.GetReviewsRequested | github-review-requests.py:81-106 | no reply gives no result; a null `data`, `search` or `edges`, or a pull request with a null author, raises; otherwise one record per edge in order, copying title, url, number, repository, author and age |
| ReviewRequests.RaisesCases | github-review-requests.py:86-96 | an error reply and a pull request by a deleted account raise; an empty search does not |
| ReviewRequests.PrBlock | github-review-requests.py:149-156 | each PR prints three lines, the last a separator |
| ReviewRequests.RenderEmpty | github-review-requests.py:131-147 | with no PRs the menu is exactly the green `#0` title, a separator and the celebration line |
| ReviewRequests.RenderItems | github-review-requests.py:144-156 | a non-empty menu is title, separator, then the PR blocks, 3 lines per PR |
| ReviewRequests.ItemLines | github-review-requests.py:149-156 | lines 3i..3i+3 of the blocks are PR i's title, subtitle and separator |
| ReviewRequests.Render | github-review-requests.py:144-156 | definition; properties in `RenderEmpty`, `RenderItems` and `ItemLines` |
| Strings.StripSpec | github-pending-prs.py:212 | `strip` removes exactly the leading and trailing whitespace: what is removed is whitespace and what is kept starts and ends with non-whitespace |
| Strings.StripUnchanged | github-pending-prs.py:225 | a line that neither starts nor ends with whitespace is printed unchanged |
| Strings.StripKeepsLast | github-review-requests.py:154-155 | a line ending in a non-space keeps its last character after `strip` |
| Strings.ParseNatToString | github-pending-prs.py:195 | the decimal rendering `%s` of a count is the count (round trip) |
| Strings.ParseIntToString | jira-support-tickets.js:179 | the decimal rendering of an integer, sign included, parses back to it |
| Strings.IntToStringInjective | jira_client.rb:30 | distinct integers render as distinct decimal strings |
| Strings.ParseHex2RoundTrip | github-pending-prs.py:185 | `%02x` of a byte is two hex digits that parse back to the byte |
| Strings.JoinEmpty | github-pending-prs.py:201-222 | `", ".join` is empty iff the list is empty (or a single empty string) |
| Strings.JoinContainsFirst | github-pending-prs.py:201-204 | the joined text starts with the first element |
| Sequences.Dedup | github-pending-prs.py:129-134 | the `not in` guard keeps a duplicate-free list with exactly the members seen |
| Sequences.DedupOrder | github-pending-prs.py:129-134 | de-duplication keeps first occurrences in their original order |
| Sequences.DedupSnoc | github-pending-prs.py:131-132 | one more element is appended iff it is not listed yet |
| Sequences.DedupOfNoDup | github-pending-prs.py:129-134 | a list already free of duplicates is kept as is |
| SupportTickets.SomeKeyFalsy | jira-support-tickets.js:75 | true iff some required key is missing or falsy in the configuration |
| SupportTickets.ConfigAccepted | jira-support-tickets.js:64-79 | a configuration is accepted iff it is an object whose four keys are all JavaScript-truthy |
| SupportTickets.EmptyQueueListAccepted | jira-support-tickets.js:75 | an empty `JIRA_QUEUES` array is truthy and accepted; an empty token string is rejected |
| SupportTickets.CheckConfig | jira-support-tickets.js:64-88 | definition; properties in `ConfigAccepted` and `EmptyQueueListAccepted` |
| SupportTickets.PickHexColour | jira-support-tickets.js:57-62 | green iff zero, orange iff non-zero below 4 (negatives included), red iff 4 or more |
| SupportTickets.GetColor | jira-support-tickets.js:90-92 | a status in the table gets its table colour; every result is one of blue, gray, green and red |
| SupportTickets.RedIffUnknownStatus | jira-support-tickets.js:24-32 | red is given exactly to statuses outside the table, since no table entry is red |
| SupportTickets.TimeSinceUnit | jira-support-tickets.js:40-55 | the unit is second, minute, hour or day by the elapsed-ms range, and the amount is minus the floored count of that unit |
| SupportTickets.TimeSince | jira-support-tickets.js:40-55 | definition; properties in `TimeSinceUnit` |
| SupportTickets.PrependPrepend | jira-support-tickets.js:141 | concatenating two pages' values in turn equals concatenating them at once |
| SupportTickets.AccumulateLastPage | jira-support-tickets.js:128-147 | when pages are fine until the first last page, the result is those pages' values in order |
| SupportTickets.AccumulateFailure | jira-support-tickets.js:136-138 | a failed response before the last page aborts the queue with an error |
| SupportTickets.Accumulate | jira-support-tickets.js:121-148 | definition; properties in `AccumulateLastPage` and `AccumulateFailure` |
| SupportTickets.FetchAllOpenTickets | jira-support-tickets.js:121-148 | the paging loop computes `Accumulate` of the responses: it stops at the first last page or error |
| SupportTickets.ToTicket | jira-support-tickets.js:157-168 | a ticket has `<domain>/browse/<key>`, the issue's priority and key, and an icon iff the priority is 1..5 |
| SupportTickets.ToTickets | jira-support-tickets.js:156-169 | one ticket per issue, in issue order |
| SupportTickets.QueueResults | jira-support-tickets.js:153-154 | one fetch outcome per configured queue, in order |
| SupportTickets.GatherAppend | jira-support-tickets.js:153-170 | a fetched queue appends its tickets after the earlier queues' tickets |
| SupportTickets.GatherFailure | jira-support-tickets.js:153-154 | the first failing queue's outcome becomes the overall outcome |
| SupportTickets.AllTicketsAppend | jira-support-tickets.js:150-173 | one more queue appends its tickets, or turns the outcome into that queue's error or unfinished paging |
| SupportTickets.FetchAllTickets | jira-support-tickets.js:150-173 | the nested loops compute `AllTickets`: every queue's tickets in queue order, or the first failure |
| SupportTickets.InsertMultiset | jira-support-tickets.js:185 | inserting a ticket adds exactly that ticket |
| SupportTickets.InsertLowerBound | jira-support-tickets.js:185 | insertion keeps a common lower bound on priorities |
| SupportTickets.InsertSorted | jira-support-tickets.js:185 | inserting into a priority-sorted list keeps it sorted and adds exactly the ticket |
| SupportTickets.WithPriorityOfLarger | jira-support-tickets.js:185 | a list of only larger priorities has no tickets of a smaller priority |
| SupportTickets.WithPriorityCons | jira-support-tickets.js:185 | a ticket list's tickets of one priority are its head's followed by its tail's |
| SupportTickets.InsertStable | jira-support-tickets.js:185 | the inserted ticket goes after all tickets of equal priority |
| SupportTickets.WithPriorityAppend | jira-support-tickets.js:185 | adding a ticket at the end adds it last among its priority |
| SupportTickets.SortByPriorityCorrect | jira-support-tickets.js:185 | the `(a, b) => a.priority - b.priority` sort yields an ascending permutation that keeps equal-priority tickets in input order |
| SupportTickets.SortByPrioritySorted | jira-support-tickets.js:185 | the sorted result is in ascending priority |
| SupportTickets.SortByPriority | jira-support-tickets.js:185 | definition (insertion sort); properties in `SortByPriorityCorrect` |
| SupportTickets.InsertAt | jira-support-tickets.js:185 | insertion places the ticket just after the last ticket of priority no greater |
| SupportTickets.InsertLast | jira-support-tickets.js:185 | one insertion pass on the array leaves its prefix equal to the functional insertion, and the rest untouched |
| SupportTickets.SortTickets | jira-support-tickets.js:185 | the in-place array sort leaves the array equal to the stable priority sort of its old contents |
| SupportTickets.Block | jira-support-tickets.js:186-189 | each ticket prints three lines, the last a separator |
| SupportTickets.AssignedTo | jira-support-tickets.js:186 | definition: the assignee text, or "Unassigned" for a falsy assignee |
| SupportTickets.TitleLine | jira-support-tickets.js:187 | definition; its place in the menu is in `BlocksLayout` |
| SupportTickets.SubtitleLine | jira-support-tickets.js:188 | definition; its place in the menu is in `BlocksLayout` |
| SupportTickets.RenderEmpty | jira-support-tickets.js:179-183 | with no tickets the menu is the green `0` title, a separator and the celebration line |
| SupportTickets.BlocksLayout | jira-support-tickets.js:185-190 | lines 3i..3i+3 are ticket i's title, status line and separator |
| SupportTickets.RenderLayout | jira-support-tickets.js:179-191 | a non-empty menu is the count title, a separator and the blocks of the sorted tickets, 3 lines each |
| SupportTickets.Render | jira-support-tickets.js:175-191 | definition; properties in `RenderEmpty` and `RenderLayout` |
| WeatherForecast.GetWeatherIcon | weather-forecast.1m.js:39-41 | a mapped code gives its icon, an unmapped code the default icon |
| WeatherForecast.DefaultIconIffUnmapped | weather-forecast.1m.js:27-41 | the default icon is returned iff the code is unmapped, since no mapped icon is the default |
| WeatherForecast.CapitalizeFirst | weather-forecast.1m.js:47-49 | the empty string stays empty; otherwise the upper-cased first character followed by the unchanged rest |
| WeatherForecast.TodayHourly | weather-forecast.1m.js:61-67 | the result holds exactly the items whose local date is today, never more than the input |
| WeatherForecast.TodayHourlySnoc | weather-forecast.1m.js:63-66 | filtering keeps an appended item iff it is from today |
| WeatherForecast.TodayHourlyAppend | weather-forecast.1m.js:61-67 | the today filter distributes over concatenation, so order is kept |
| WeatherForecast.FirstFive | weather-forecast.1m.js:120 | `slice(0, 5)`: the first min(n, 5) values, unchanged when fewer than five |
| WeatherForecast.ProcessForecast | weather-forecast.1m.js:103-121 | the loop over items and the map it fills give the first five values of the day grouping |
| WeatherForecast.Step | weather-forecast.1m.js:108-117 | definition of one loop iteration; properties in `DailyKeys` and `DailyMembers` |
| WeatherForecast.DailyData | weather-forecast.1m.js:104-118 | definition of the whole loop; properties in `DailyKeys`, `DailyMembers` and `ProcessForecastSpec` |
| WeatherForecast.DailyKeys | weather-forecast.1m.js:107-118 | the days are the distinct local dates with an 11:00-14:00 forecast, in first-seen order, and exactly those have an entry |
| WeatherForecast.NoonIsInWindow | weather-forecast.1m.js:113-114 | a day with a 12:00 forecast has some 11:00-14:00 forecast |
| WeatherForecast.DailyMembers | weather-forecast.1m.js:113-116 | a day keeps its last 12:00 forecast, otherwise its first 11:00-14:00 forecast |
| WeatherForecast.ChosenItemOfDay | weather-forecast.1m.js:107-116 | the forecast kept for a day is from that day, within 11:00-14:00 |
| WeatherForecast.ValuesAlongKeys | weather-forecast.1m.js:120 | `Object.values` lists one value per key, in key insertion order |
| WeatherForecast.DaysInOrder | weather-forecast.1m.js:103-120 | the grouped forecasts have distinct days, in order of first appearance |
| WeatherForecast.ProcessForecastSpec | weather-forecast.1m.js:103-121 | the result has min(days, 5) forecasts; the i-th is the chosen midday forecast of the i-th day; days are distinct |
| WeatherForecast.AllMembers | weather-forecast.1m.js:107-118 | every kept forecast belongs to its day, is within the window and is the chosen one |
| AttendanceTickets.PickHexColour | jira-attendance-support-tickets.1m.rb:14-23 | green iff zero, orange iff 1..3, red for everything else, negatives included |
| AttendanceTickets.TotalSize | jira-attendance-support-tickets.1m.rb:32 | definition; properties in `TotalSizeAppend` and `TotalSizeZero` |
| AttendanceTickets.TotalSizeAppend | jira-attendance-support-tickets.1m.rb:32 | the size sum adds each reply's size; a missing size and a raw body both count 0 |
| AttendanceTickets.TotalSizeZero | jira-attendance-support-tickets.1m.rb:32-38 | with non-negative sizes the total is non-negative, and zero iff every queue's size is zero |
| AttendanceTickets.AllTicketsAppend | jira-attendance-support-tickets.1m.rb:34 | when the queues so far and the new one have their values, the reduce appends the new values after the earlier ones |
| AttendanceTickets.AllTicketsMembers | jira-attendance-support-tickets.1m.rb:34 | when the reduce succeeds, a ticket is listed iff it is in some queue's values |
| AttendanceTickets.AllTickets | jira-attendance-support-tickets.1m.rb:34 | the reduce succeeds iff every reply has an array of values; properties in `AllTicketsAppend` and `AllTicketsMembers` |
| AttendanceTickets.RawBodyRaises | jira-attendance-support-tickets.1m.rb:34 | a raw body from a failed reply (jira_client.rb:25) anywhere makes the reduce raise |
| AttendanceTickets.TicketUrl | jira-attendance-support-tickets.1m.rb:41 | the link is the browse prefix followed by the key |
| AttendanceTickets.TicketUrlInjective | jira-attendance-support-tickets.1m.rb:41 | distinct keys give distinct links |
| AttendanceTickets.TicketLineChoice | jira-attendance-support-tickets.1m.rb:42-46 | the line starts with the key; it shows the summary iff the status ends in "support", otherwise the status |
| AttendanceTickets.TicketLine | jira-attendance-support-tickets.1m.rb:41-46 | definition; properties in `TicketLineChoice` |
| AttendanceTickets.TicketBlock | jira-attendance-support-tickets.1m.rb:40-48 | each ticket prints two lines, the last a separator |
| AttendanceTickets.RenderHeader | jira-attendance-support-tickets.1m.rb:31-48 | a menu is printed iff every reply carries an array of values; it has the title and separator, then the celebration line iff the total size is zero, then the ticket lines |
| AttendanceTickets.TicketLines | jira-attendance-support-tickets.1m.rb:40-48 | lines 2i..2i+2 of the ticket part are ticket i's line and a separator |
| AttendanceTickets.RenderNoQueues | jira-attendance-support-tickets.1m.rb:34-38 | with no queues the menu is printed and is the green `0` title, a separator and the celebration line |
| AttendanceTickets.Render | jira-attendance-support-tickets.1m.rb:31-48 | definition; properties in `RenderHeader`, `TicketLines` and `RenderNoQueues` |
| JiraClientModel.StripTrailingSlash | jira_client.rb:14 | a trailing slash is removed (one character), otherwise the domain is kept |
| JiraClientModel.StripOneSlashOnly | jira_client.rb:14 | only one slash is removed; normalising twice is the same as once for a slash-free domain |
| JiraClientModel.Classify | jira_client.rb:25 | the body is parsed iff the status code starts with "20", and is raw otherwise |
| JiraClientModel.ClassifyExamples | jira_client.rb:25 | 200, 201 and 204 are parsed; 404, 500, 226 and "2" are raw |
| JiraClientModel.JiraClient.constructor | jira_client.rb:13-16 | the client keeps the normalised domain (the default site when none is given) and the strict Base64 of `email:token` |
| JiraClientModel.DefaultDomainKept | jira_client.rb:13-14 | the default domain has no trailing slash, so it is kept as it is |
| JiraClientModel.NewDefaultClient | jira_client.rb:13-16 | a client made without a domain uses `https://jobandtalent.atlassian.net` and the Base64 of `email:token` |
| JiraClientModel.JiraClient.Authorization | jira_client.rb:22 | the header is "Basic " followed by the stored credentials |
| JiraClientModel.JiraClient.QueueUri | jira_client.rb:29-31 | the queue URI starts with the domain's service-desk API path and ends in `/issue` |
| JiraClientModel.QueuePathInjective | jira_client.rb:30 | distinct (service desk, queue) pairs give distinct paths |
| JiraClientModel.QueueUriInjective | jira_client.rb:29-31 | one client gives distinct URIs for distinct (service desk, queue) pairs |
| Base64.Encode | jira_client.rb:15 | `strict_encode64` output has length 4 * ceil(n / 3), a multiple of 4, with no line breaks |
| Base64.DecodeEncode | jira_client.rb:15 | decoding the encoding gives back the bytes (section 4 of RFC 4648) |
| Base64.EncodeInjective | jira_client.rb:15 | distinct credentials encode differently |
| Base64.EncodeAlphabet | jira_client.rb:15 | every character is from the Base64 alphabet or `=`, and padding is only in the last two positions |

## Left out

- Network access is not modelled:
  - HTTP requests and GraphQL query strings;
  - `execute_github_query`, `makeAPIRequest`, `Net::HTTP`, `fetch`;
  - the `get_queue` request itself.

  Responses are inputs of the model: an `Option` for the Python transport, and page lists for the JavaScript pager.
- Files and the environment are not modelled: reading `github-config.json` and `jira-config.json` (only the JavaScript key check is modelled) and `ENV` (email and token are constructor inputs).
- `fatal_error`, `fatalError` and process exit are not modelled. Their error menus are outside the model. Configuration rejection is a `ConfigCheck` value, and fetch errors are the `FetchError` outcome.
- Clocks and locales are not modelled:
  - `datetime.now` and `strptime` become a `clock` parameter giving a `timedelta`;
  - `new Date` arithmetic becomes an `elapsedMs` parameter;
  - `toDateString` and `getHours` become a `local` parameter;
  - `Intl.RelativeTimeFormat` becomes the `relative` parameter, and its English wording is outside the model;
  - `toUpperCase` becomes the `upper` parameter.
- The weather script's `main` is not modelled, nor `formatTemperature`, `formatDay`, `formatHour` and the request timeout. They only format floating-point and locale output, or do I/O.
- Floating point:
  - `HealthColour.Blend` works on integers. `BlendIsTruncatedRealBlend` proves it equals `int()` of the real-valued formula.
  - `github-review-requests.py:142` passes floats to `%02x`. The model uses the truncated value, as Python 2 accepts.
- `getTickets` in `jira-support-tickets.js` is never called, so it is not modelled.
- The `_links.next` URL and `?start=` paging parameters are not modelled. Pages are given in order.
- A pager whose responses run out before `isLastPage` ends as `Unfinished` rather than looping forever.
- `SupportTickets.ToTicket` models the priority id as its numeric value. Non-numeric ids (`+id` giving NaN, string comparison in the sort) are not modelled.
- SupportTickets.GetColor: a status named after an inherited object property (`constructor`, `toString`) makes `COLORS[status]` an inherited function, not a colour; the model treats it as a status outside the table.
- WeatherForecast.GetWeatherIcon: an icon code named after an inherited object property gives an inherited function in the script; the model gives the default icon.
- `AttendanceTickets.SizeOf` takes the size as an optional integer, with missing counting 0. Ruby's `String#to_i` on a textual size is not modelled.
- `queues()` in `jira-attendance-support-tickets.1m.rb:25-28` builds clients and calls the network, so it is not modelled. Its replies, parsed objects or raw bodies, are the model's input. A `values` member that is neither an array nor null is not modelled.
- The GitHub scripts: only a null `data`, `search`, `edges` or author makes the model raise. Other null members of a node (`repository`, `commits`, `reviewRequests`, `reviews`) are assumed present, and the traceback text is not modelled.
- `AttendanceTickets.TicketLine` assumes a status name is present. With `nil`, Ruby raises `NoMethodError`, and that case is not modelled.
- `JiraClientModel.Classify` keeps a successful body as text under `Parsed`. `JSON.parse` and its parse errors are not modelled.
- Strings are sequences of characters. Python 2's `encode('utf-8')` before `strip` is assumed to change nothing the model can observe, and email and token bytes are inputs.
- Concurrency is not modelled: the `async`/`await` ordering is taken as sequential, which is what the awaited loops do.
- Facts about the code that the model follows:
  - `parse_date` in `github-pending-prs.py` uses true division, so 90 seconds prints "0 hour" (`PendingPrs.ParseDateUnderAnHour`).
  - The zero-item menus have no separator after the celebration line.
  - The Python celebration lines end in a space.
