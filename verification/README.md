# Quote-of-the-day bot: subscriptions and reply texts

A model of the core of a Telegram bot that serves quotes from a quotes
service. The model has three parts:

- `bot.dfy` (module `Bot`) models the daily quote-of-the-day subscriptions.
  - The `subscriptions` dictionary becomes the class `Registry`, with a map field.
  - The `/subscribe` handler becomes `Registry.Subscribe`. Its chain of guards
    (argument count, same time as before, the `hh:mm` pattern, the hour, the
    minute) is given by the function `SubscribeVerdict`.
  - The `/unsubscribe` handler becomes `Registry.Unsubscribe`.
  - `save_subscriptions` becomes `Registry.Snapshot` and `Registry.Save`.
    They compute the user-to-raw-time dictionary written to the
    subscriptions file.
  - The job queue appears only through what the handlers do with it.
    `Registry.RunDaily` schedules a daily job under a fresh id.
    `schedule_removal` adds the job to the ghost set `cancelled`.
  - Every reply sent with `send_async` is appended to the `outbox` sequence,
    in sending order.
  - The class invariant `Valid` states the following. Every subscription
    holds a well-formed time and a live, uncancelled job of its own,
    scheduled at that time. No two users share a job. The saved snapshot
    mirrors the registry.
- `messages.dfy` (module `Messages`) models the reply texts.
  - The fixed replies and the one-placeholder templates.
  - The count line for a quote search.
  - The rendering of a quote, of a list of quotes and of the quote of the day.
  - The error report for the administrator.
  - `format_quote` and `format_quotes` contain loops, so they are methods,
    each proved against a specification function. That function's
    properties are proved as lemmas: line layout, the order of names,
    decoding of numbers.
- `text.dfy` (module `Text`) holds the string vocabulary the two modules
  share. It has decimal rendering and parsing of integers (Python's `str`
  and `int`), `str.replace` of one character, `", ".join`-style joining,
  splitting into lines at `'\n'`, and concatenation.

I/O stays outside the model:
- The quotes service, the Telegram API and the subscriptions file are not
  modelled. The file is the `saved` field.
- Clock times are numbers carried by a job. Nothing in the model runs at
  those times.
- A quote arrives as an already-decoded `Quote` value.

## Model

| member | source | states |
|---|---|---|
| Messages.QuotesFound | messages.py:17-20 | defines the count line: the word "No" for a count of zero, otherwise the count in decimal, followed by " quotes found" |
| Messages.QuotedPersonsText | messages.py:34-38 | defines the quoted-persons field: the full names of the quoted persons, in order, joined with ", " |
| Messages.DateText | messages.py:41 | defines the date field: the date with every '-' replaced by '/' |
| Messages.QuoteText | messages.py:4-7 | defines the filled quote template: the text in double quotes, "~ " and the quoted persons, the brain count and " Brain", "Submitted by " the quoter " on " the date, one per line |
| Messages.QuotesText | messages.py:23-29 | defines what `format_quotes` returns as written: "" for no quotes, otherwise "\n\n" followed by the quote texts with nothing between them |
| Messages.QuoteOfTheDayText | messages.py:45-46 | defines the quote of the day: "The quote of the day!", a line break, then the quote text |
| Messages.AlreadySubscribed | messages.py:49-50 | defines the already-subscribed reply: its fixed sentence with the time and a final "." |
| Messages.SubscriptionRemoved | messages.py:53-54 | defines the removal reply: "Your subscription for ", the time, " was removed." |
| Messages.SubscriptionSuccessful | messages.py:57-58 | defines the success reply: its fixed sentence with the time and a final "." |
| Messages.ErrorReport | messages.py:61-62 | defines the error report: the request and the user name on the first line, "Code: " and the code on the second |
| Bot.MatchesTimePattern | bot.py:95 | defines the time pattern: two digits, a colon and two digits, optionally followed by one final newline (Python's `$`) |
| Bot.Hour | bot.py:100 | defines the hour as the decimal value of the two digits before the colon |
| Bot.Minute | bot.py:100 | defines the minute as the decimal value of the two digits after the colon |
| Bot.IsTimeOfDay | bot.py:95-112 | defines the times that pass all three time checks: the pattern, an hour of at most 23 and a minute of at most 59 |
| Bot.StoredTime | bot.py:89 | defines the raw time stored for a user, or nothing when the user has no subscription |
| Bot.IsSnapshotOf | bot.py:37-39 | defines the saved dictionary: exactly the registry's users, each mapped to their raw time |
| Text.IntToStringRoundTrip | messages.py:17-20 | the decimal text Python's `format` gives an integer is an integer literal and reads back as that same integer |
| Messages.QuotesFoundDecodes | messages.py:17-20 | the count line ends in " quotes found"; what precedes it is "No" exactly when the count is zero, and otherwise it is the count in decimal, which reads back to the count |
| Messages.FullName | messages.py:38 | a person's full name is first name, one space, last name: its length is the sum plus one and the space sits right after the first name |
| Messages.FormatQuotedPersons | messages.py:34-38 | the loop over the quoted persons returns exactly the full names, in order, separated by ", " (the join that `QuotedPersonsText` defines) |
| Messages.PersonsStep | messages.py:36-38 | one turn of that loop: ", " is added before every name except the first, and after the turn the text is non-empty |
| Messages.QuotedPersonsEmpty | messages.py:34-38 | the quoted-persons field is empty if and only if the quote names nobody |
| Messages.QuotedPersonsInOrder | messages.py:35-38 | person `i`'s full name stands at its offset in the field, followed by ", " unless it is the last person |
| Messages.QuotedPersonsLength | messages.py:35-38 | the field consists of the names and the separators between them and nothing more |
| Messages.DateTextRewritesDashes | messages.py:41 | the rendered date has the input's length, no '-' left, every '-' turned into '/', and every other character kept |
| Messages.FormatQuote | messages.py:32-42 | the method returns the quote text the template defines |
| Messages.QuoteLines | messages.py:4-7 | a quote whose fields hold no line break renders as exactly four lines: the quoted text, "~ " and the persons, the brain count, and "Submitted by … on …" |
| Messages.FormatQuotes | messages.py:23-29 | the method returns "" for no quotes, and otherwise "\n\n" followed by the quote texts back to back |
| Messages.QuotesStep | messages.py:25-28 | one turn of that loop: the text so far is empty only before the first quote, and appending (after "\n\n" on the first turn) the next quote extends it by exactly that quote |
| Messages.QuotesOfTwo | messages.py:23-29 | two quotes render as "\n\n" followed by both quote texts with nothing in between |
| Messages.QuotesRunTogether | messages.py:23-29 | as written, two single-line-field quotes give nine lines, two of them empty at the start; the last line of the first quote is glued to the first line of the second |
| Messages.SeparatedQuotesLines | messages.py:23-29 | with "\n\n" between quotes, quote `i` occupies lines 5i to 5i+3, an empty line follows every quote except the last, and there are 5n-1 lines |
| Messages.FourLineBlocks | messages.py:23-29 | texts of four lines each, joined with "\n\n", lay out as blocks of four lines with one empty line between consecutive blocks |
| Messages.FormatQuoteOfTheDay | messages.py:45-46 | the method returns the header line followed by the quote; its lines are "The quote of the day!" and then exactly the lines of the quote |
| Messages.QuoteOfTheDayLines | messages.py:8-9 | the quote-of-the-day text is the header line followed by exactly the lines of the quote |
| Messages.SubscriptionRepliesEmbedTime | messages.py:49-58 | each subscription reply carries its time verbatim right after its fixed prefix, with a fixed total length |
| Messages.SubscriptionRepliesInjective | messages.py:49-58 | two replies of the same kind are equal only when their times are equal |
| Messages.SubscriptionRepliesDistinct | messages.py:10-12 | replies of different kinds are never equal, whatever times they carry (so "removed" for the old time differs from "successful" for the new one); this covers the three templates and the five fixed replies of lines 70-75 |
| Messages.ErrorReportCodeOnLastLine | messages.py:61-62 | whatever the request and user name contain, the last line of the error report is "Code: " and the code, and that code reads back |
| Bot.HourMinuteDigits | bot.py:100 | `int()` of each side of the colon is ten times its first digit plus its second digit |
| Bot.TimePatternWithoutNewline | bot.py:95 | for an argument without a newline, the pattern accepts exactly two digits, a colon and two digits |
| Bot.SubscribeVerdict | bot.py:80-112 | a command is accepted if and only if it has one argument, that argument differs from the stored time, and it is a valid time of day; an accepted command carries an hour of at most 23 and a minute of at most 59 |
| Bot.RejectionReplies | bot.py:80-112 | each rejected command gets the reply of the first guard it fails, in the source's order |
| Bot.VerdictExamples | bot.py:89-112 | "25:00" is refused for its hour; "09:00" is refused when it is already stored; otherwise "09:00" is accepted as 9:00 |
| Bot.SubscribeKeepsJobsConsistent | bot.py:114-125 | replacing a user's subscription with a fresh job at a valid time, and cancelling the old job, keeps every subscription's job live, distinct and at its time |
| Bot.UnsubscribeKeepsJobsConsistent | bot.py:142-144 | removing a user and cancelling their job keeps the invariant for everyone else |
| Bot.Registry.constructor | bot.py:19 | the registry starts empty, with nothing saved, sent or scheduled |
| Bot.Registry.Send | bot.py:128-130 | a sent reply goes to the end of the outbox |
| Bot.Registry.RunDaily | bot.py:122-124 | a new daily job for the chat, at the given hour and minute, under an id never used before |
| Bot.Registry.Snapshot | bot.py:37-39 | the loop builds a map with exactly the registry's users, each mapped to their raw time |
| Bot.Registry.Save | bot.py:36-41 | the saved contents become that snapshot of the registry |
| Bot.Registry.Subscribe | bot.py:78-130 | keeps `Valid`; a rejected command sends the reply of the guard it fails and changes nothing else; an accepted one stores the raw time with a fresh job at the parsed hour and minute and saves the snapshot; if the user had a subscription its job is cancelled and "removed" (old time) then "successful" are sent, otherwise nothing is cancelled and only "successful" is sent |
| Bot.Registry.Unsubscribe | bot.py:133-148 | keeps `Valid` and schedules nothing; an unknown user gets the not-subscribed reply and nothing else changes; a known user is removed, their job cancelled, the snapshot saved, and "removed" sent with their old time |

## Left out

- Loading the subscriptions file at start-up (`load_subscriptions`), YAML
  reading and writing, and every other file I/O are not modelled. The
  registry starts empty, and the file is the `saved` field.
- The timer semantics of the job queue are not modelled. This covers
  `run_daily` firing, `send_quote_of_the_day` and its callback closure. A
  job is a fresh id with a chat, an hour and a minute.
- `send_async` is modelled as appending to `outbox`. Its asynchronous
  delivery and possible reordering are left out.
- The quotes service, the random-quote and quote-of-the-day handlers, the
  `/quotes` handler, the error handler, the admin chat, the help text, the
  `command_handler` decorator and the module entry point are not part of
  this model.
- Bot.MatchesTimePattern: `\d` is read as an ASCII digit '0'..'9'. Python
  also accepts other Unicode decimal digits there, and `int()` would
  convert them.
- Bot.MatchesTimePattern: Python's `$` also matches before a final newline,
  so "hh:mm\n" is accepted, and `int()` ignores the newline. The model
  follows this. The argument list comes from a whitespace split, so such an
  argument does not arise in practice. `Bot.TimePatternWithoutNewline`
  states the pattern for newline-free arguments.
- Messages.Quote: a quote is an already-decoded record. The `int(...)`
  coercion of the brain field and missing keys in the service's JSON are
  not modelled.
- Bot.Registry.Snapshot: the order in which the dictionary is iterated is
  not modelled. The resulting map does not depend on it.
- The templates for the count line and the quote (messages.py:3-7) end
  without a final ".", and so do the modelled texts.

## Findings

| source | as written | input that shows it | evidently intended | confidence | as-written member | corrected member |
|---|---|---|---|---|---|---|
| messages.py:26-27 | `"\n\n"` is added only when `res` is still empty, i.e. once before the first quote; consecutive quotes are appended with nothing between them | two quotes q1, q2 with single-line fields: the sixth line of the result is "Submitted by … on …" of q1 immediately followed by the quoted text of q2 | a blank line ("\n\n") between consecutive quotes, so every quote keeps its own four lines | medium, not executed | Messages.QuotesRunTogether | Messages.SeparatedQuotesLines |
