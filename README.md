# gmailreminder: the reminder decision logic, in Dafny

The reminder job of `index.js` lists the threads in a Gmail inbox, fetches each
thread, keeps the threads whose last message was not sent by the owner and
whose age lies strictly inside one of the configured day windows, and posts
one Slack message per kept thread. This project models the decisions of that
job as pure functions, with the current time, the reminder day counts and the
owner's e-mail passed as parameters instead of `new Date()`, `REMINDERS` and
`EMAIL`:

- `Gmail` (gmail.dfy): threads, messages and headers as records; the label
  test (`indexOf`) and the case-insensitive header lookup `getHeaderField`.
- `Triage` (triage.dfy): the age in milliseconds and days, the `reduce` over
  the reminder windows, `isRelevant`, and `threads.filter(isRelevant)`.
- `Slack` (slack.dfy): the payload of `sendSlackMessage`. That covers the
  German sentence with its singular/plural noun, the `warning`/`danger`
  colour, the Gmail deep link used as `fallback` and as the button URL, and
  the timestamp in seconds. The sentence has a reader, so the round trip
  sentence → (age, plural, owner) is proved.
- `Reminder` (reminder.dfy): one run after fetching: filter, then one payload
  per due thread, in input order.
- `Decimal` (decimal.dfy) renders an integer the way a template literal does
  for magnitudes below 10^21, which covers every day age a timestamp can
  give, and reads it back. `Wrappers` (wrappers.dfy) holds `Option`, which stands for
  JavaScript's `null`.

The model follows the code; in particular:

- Windows are open at both ends (`cv*ONE_DAY < ago < (cv+1)*ONE_DAY`), not
  half-open. An age of exactly a whole number of days is never due.
- The day counts are not checked for order, duplicates or emptiness. The
  properties that need ascending counts say so in their `requires`.
- The colour compares the rounded-down age with the first configured count,
  `REMINDERS[0]`, and not with the window that matched. For a due thread the
  two agree (`Slack.RelevantWarningIffFirstWindow`).
- Due threads keep their input order; nothing sorts them by id.
- A failed fetch of a thread, or a network error on a post, rejects the
  whole run. There is no per-item failure report, so none is modelled. A
  webhook reply with an error status still resolves (index.js:210) and is
  counted in the summary line.

## Model

| member | source | states |
|---|---|---|
| `Gmail.LastMessage` | index.js:160 | the message read is the last one: the thread is its other messages followed by it; threads must be non-empty |
| `Gmail.IndexOf` | index.js:166 | result is -1 exactly when the label is absent, otherwise the first position holding it |
| `Gmail.ToLower` | index.js:215 | same length; every ASCII capital becomes its lower-case letter and every other character is kept |
| `Gmail.NameMatches` | index.js:215 | a header name matches the field iff both have the same length and agree letter by letter up to ASCII case |
| `Gmail.FindHeader` | index.js:214-216 | none found exactly when no header name matches the field up to case; otherwise the first matching position |
| `Gmail.GetHeaderField` | index.js:213-218 | `null` exactly when no header matches; otherwise the value of a matching header with no match before it |
| `Gmail.HeaderFieldCaseInsensitive` | index.js:215 | two field names that agree up to case give the same lookup result |
| `Gmail.HeaderNamesCaseInsensitive` | index.js:215 | headers whose names agree up to case, with equal values, give the same lookup result |
| `Triage.Elapsed` | index.js:161 | the message timestamp plus the elapsed time is `now`; the age is positive iff the message is older than `now` |
| `Triage.AgeDays` | index.js:177 | the age in days is the floor: `d*ONE_DAY <= ago < (d+1)*ONE_DAY`, for negative ages too |
| `Triage.InWindow` | index.js:163 | an age lies in window `cv` (both bounds strict) iff its floor in days is `cv` and it is not a whole number of days |
| `Triage.FoldWindows` | index.js:162-165 | the or-reduce from any accumulator is true iff the accumulator is, or some entry's open window holds the age |
| `Triage.InRelevantDate` | index.js:162-165 | `isInRelevantDate` holds iff some configured count's open window holds the age |
| `Triage.SentIsNeverRelevant` | index.js:166 | a thread whose last message carries `SENT` is never due, at any age |
| `Triage.IsRelevant` | index.js:159-167 | due iff the last message lacks `SENT` and some configured window strictly contains its age |
| `Triage.WindowBoundaries` | index.js:163 | exactly `cv` and exactly `cv+1` days are outside window `cv`; one millisecond inside either end is within it |
| `Triage.ReminderSetDecides` | index.js:162-165 | two reminder lists with the same entries give the same verdict, whatever their order or repetition |
| `Triage.ReminderPermutationIrrelevant` | index.js:162-166 | reordering the reminder list leaves `isRelevant` unchanged |
| `Triage.NonPositiveAgeNeverRelevant` | index.js:162-165 | with non-negative counts, a message dated now or in the future is never in a window |
| `Triage.BeforeFirstThresholdNeverRelevant` | index.js:162-165 | with ascending counts, an age below the first count in days is never in a window |
| `Triage.RelevantAgeIsConfigured` | index.js:163 | for a due thread, the day age of `sendSlackMessage` is a configured count whose window holds the age |
| `Triage.RelevantIffConfiguredAge` | index.js:159-167 | due iff not `SENT`, the age is not a whole number of days, and its floor in days is configured |
| `Triage.FilterRelevant` | index.js:113 | the kept threads are exactly the input threads that are due, and they are no more than the input |
| `Triage.FilterConcat` | index.js:113 | filtering a concatenation is the concatenation of the filtered parts, so input order is kept |
| `Triage.FilterCount` | index.js:113-115 | the number of kept threads is the number of input positions holding a due thread |
| `Decimal.NatToString` | index.js:181 | the rendering is non-empty, all digits, and has no leading zero |
| `Decimal.IntToString` | index.js:181 | non-empty, and starts with `-` exactly for negative numbers |
| `Decimal.NatToStringValue` | index.js:181 | the digits of `n` have the value `n` |
| `Decimal.ReadIntRoundTrip` | index.js:181 | reading the rendering of any integer, when no digit follows, gives back the integer and the rest of the text |
| `Slack.DeepLink` | index.js:172-174 | the link is the Gmail base, then the owner's e-mail, then `/#inbox/`, then the thread id, and nothing else |
| `Slack.DeepLinkNamesThread` | index.js:172-174 | the text after the link's last `/` is the thread id, for any id without `/` |
| `Slack.DeepLinkInjective` | index.js:172-174 | for one owner, equal links mean equal thread ids |
| `Slack.Color` | index.js:178 | `warning` exactly when the list is non-empty and the age equals its first count, otherwise `danger` |
| `Slack.DayNoun` | index.js:181-182 | `Tag` exactly when the age is 1, `Tagen` for every other age |
| `Slack.ReminderText` | index.js:181-183 | the sentence starts with the fixed lead-in and ends with the owner's e-mail and the fixed closing request |
| `Slack.ReminderTextRoundTrip` | index.js:181-183 | the sentence can be read back to the age, to plural exactly when age is not 1, and to the owner's e-mail |
| `Slack.SecondsOf` | index.js:192 | seconds truncated toward zero: `t*1000 <= ms < (t+1)*1000` for non-negative `ms`, mirrored for negative |
| `Slack.ReminderPayload` | index.js:169-202 | one attachment with one action, a `button` labelled `Öffnen`; the deep link is both `fallback` and button URL; `callback_id` is the thread id; title and author are the `subject` and `from` lookups; the colour is `warning` when the day age equals the first count and `danger` otherwise; `ts` is the timestamp in seconds truncated toward zero, for either sign; the text is the reminder sentence for the day age and owner, which reads back to them |
| `Slack.RelevantWarningIffFirstWindow` | index.js:163-178 | for a due thread, the colour is `warning` exactly when the first configured window holds its age |
| `Reminder.RunReminder` | index.js:110-116 | as many payloads as kept threads, the k-th built from the k-th kept thread; with `Triage.FilterRelevant` and `Triage.FilterConcat` this is one payload per due thread, in input order |
| `Reminder.RunReminderFromDueThreads` | index.js:113-114 | every payload of a run is the payload of some due input thread |
| `Reminder.RunReminderCount` | index.js:113-115 | the reported count equals the number of due input threads |
| `Reminder.ScenarioThreeAndSeven` | index.js:159-178 | with counts [3, 7]: 3.5 days gives `warning`, 7.2 days `danger`, exactly 8 days nothing |

## Left out

- Reading the configuration file, the OAuth client, reading and writing the
  token, and entering the code on stdin (index.js:18-108): file I/O, a
  terminal and a foreign authentication library.
- The Gmail API calls `getThreads` and `getLastMessage` (index.js:118-157):
  network I/O. Their results are the `Gmail.Thread` and `Gmail.Message`
  records. `internalDate` is an already-parsed integer, so the `parseInt` of
  the decimal string is not modelled.
- The POST to the webhook and JSON serialisation (index.js:204-210): network
  I/O. The payload is the `Slack.Payload` datatype, not a JSON string, and the
  webhook address is not part of `Slack.Config`.
- The `Promise.all` fan-outs (index.js:112, index.js:114) are concurrency.
  The model keeps only their order-preserving, all-or-nothing result.
- The console summary line (index.js:115) is output only. What it reports is
  the payload count, which `Reminder.RunReminderCount` covers.
- `new Date()` (index.js:161, index.js:171) is the parameter `now`. The
  source reads the clock once per thread in the filter and again in each
  `sendSlackMessage`; the model uses one instant for both. A timestamp that
  is due one millisecond before a window closes can therefore be formatted
  with the next day's age and colour in the source. `Triage.RelevantAgeIsConfigured`
  and `Slack.RelevantWarningIffFirstWindow` rely on the single instant. The module
  globals `EMAIL` and `REMINDERS` are the fields of `Slack.Config`.
- `Triage.AgeDays`: models `Math.floor(ago / ONE_DAY)` as exact integer floor
  division. It does not capture floating-point rounding, which only
  matters for ages near 2^53 milliseconds.
- `Slack.SecondsOf`: models `parseInt(internalDate / 1000, 10)` as truncation
  toward zero on the exact integer timestamp. It does not model the
  conversion of the decimal string `internalDate` to a Number: above 2^53 ms
  that conversion rounds (a timestamp ending in 999 can become the next
  thousand), which can give one second more. Nor does it model what
  `parseInt` makes of the exponent notation of quotients of 10^21 or more,
  which needs timestamps of 10^24 ms or more.
- `Gmail.ToLower`: lower-cases only the ASCII capitals. It does not model the
  rest of Unicode case mapping in `toLowerCase`.
- `Gmail.LastMessage`: requires a non-empty thread. The source reads the last
  message without a check and would throw on an empty thread, and Gmail does
  not return one.
- Day counts are integers. Non-integral or non-numeric config values are not
  modelled.
- The misspelled global `EMIAL` (index.js:13) is not modelled, because the
  owner's e-mail is a parameter.
