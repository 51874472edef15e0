# feedme: the feed-to-digest pipeline, modelled in Dafny

feedme polls one syndication feed, renders its entries into an HTML digest
through a template, saves the digest under an output namespace
`<output_folder>/<template_name>`, optionally emails it to a contact list,
and keeps a watermark (the `TRACKER` file of the namespace) so that a feed
update that has already been processed is skipped on the next run.

The model covers the two versions of the pipeline and the helpers they use:

- `feedme/__main__.py` `main`, the packaged pipeline: a specification
  function `Pipeline.Run` from the state before the run to the outcome and
  the state after it. The method `Orchestrator.Workspace.Run` runs the same
  steps one at a time on a workspace object (directories, files, sent
  messages) and is proved to agree with `Pipeline.Run`.
- `feedme/app.py` `main`, the older standalone pipeline: `LegacyPipeline.Run`
  and `Orchestrator.Workspace.LegacyRun`, in the same way.
- `feedme/utils.py`:
  - `parse_contacts` is `Contacts.ParseContacts`, a loop proved equal to
    `Contacts.ContactsOf`;
  - `parse_posts` is `Posts.ParsePosts`, proved equal to `Posts.PostsOf`;
  - `get_tracker_datetime` and `set_tracker_datetime` are
    `Watermark.GetTrackerDatetime` and `Watermark.SetTrackerDatetime`, with
    the workspace methods `ReadTracker` and `SetTracker`.

  `feedme/app.py` lines 51-95 hold a copy of these four helpers. The copy is
  the same code, so the same members model it.

The model represents the world as follows:

- The outside world is a `Disk`: a set of directories, a map from file paths
  to their text, and the list of messages handed to the mail service.
- A run's other inputs are parameters: the fetched feed (or a failed
  fetch), the RFC 822 timestamp parser, whether the template exists, the
  template's rendering function, the wall clock, the text of the contacts
  file (or its absence), the mail client and whether its `send_message`
  succeeds, and the way a TRACKER write can fail.
- Timestamps are instants (integers). The TRACKER text for an instant is
  its signed decimal numeral, and reading a TRACKER parses the first line of
  the file after universal-newline translation.
- Digest names are built with zero-padded fields, like
  `strftime("%Y%m%d%H%M%S")` in the packaged pipeline and
  `strftime("%Y%m%d")` in the older one.

Behaviours of the code worth noting, each stated by a lemma:

- A contact line becomes a contact only when it holds exactly one comma.
  `name, email = line.split(",")` fails otherwise, and the line is dropped.
  It is not passed through as a fallback address, and a line with two
  commas is not split at the first one (`Contacts.ContactIffOneComma`,
  `Contacts.MalformedLineDropped`).
- The namespace directory is created before the freshness and template
  checks. A run that stops at "template not found" or "already processed"
  still leaves the directory behind (`Pipeline.NamespaceCreatedFirst`).
- The watermark is written after the email step, not before it. When a
  client is configured, an unreadable contacts file or a raising
  `send_message` ends the run without touching it
  (`Pipeline.FailedSendKeepsTracker`, `Pipeline.TrackerWrittenLast`).
- A forced run (`ignore_tracker`) overwrites the watermark with the feed's
  timestamp even when the stored one is later, so the watermark can move
  backwards (`Pipeline.ForcedRunOverwrites`). Only unforced runs advance it
  (`Pipeline.UnforcedRunAdvancesWatermark`).
- Digest names have one-second resolution. Runs at distinct seconds never
  overwrite each other's digest (`Pipeline.DistinctSecondsKeepDigests`),
  but two runs in the same second do.
- The older pipeline calls `strptime` outside any `try`. A missing or
  unparsable `updated` field aborts its run with an exception, after the
  namespace directory was created. It always parses the contacts and
  always sends one email, even to an empty recipient list (`to == ""`).

## Model

| member | source | states |
|---|---|---|
| Text.Strip | feedme/utils.py:12 | `strip()` returns a slice of the line whose ends are not whitespace, and everything cut off on either side is whitespace |
| Text.Split | feedme/utils.py:11 | `s.split(",")`: the pieces between commas, always at least one; `SplitCount`, `JoinSplit` and `SplitPiecesHaveNoComma` state what they are |
| Text.Join | feedme/__main__.py:136 | `",".join(parts)`; `SplitJoin` proves splitting undoes it |
| Text.StripPadded | feedme/utils.py:12 | stripping a core whose ends are not whitespace, padded on both sides with whitespace, gives back exactly the core |
| Text.SplitCount | feedme/utils.py:11 | `split(",")` yields one more piece than the line has commas |
| Text.SplitPiecesHaveNoComma | feedme/utils.py:11 | no piece of `split(",")` contains a comma |
| Text.JoinSplit | feedme/utils.py:11 | joining the pieces of `split(",")` with commas rebuilds the line |
| Text.SplitAfterHead | feedme/utils.py:11 | a comma-free head before the first comma splits off as one piece |
| Text.SplitNoComma | feedme/utils.py:11 | a comma-free line is a single piece |
| Text.SplitJoin | feedme/__main__.py:136 | splitting `",".join(parts)` on commas gives back the parts when none holds a comma |
| Text.UniversalNewlines | feedme/utils.py:7 | text read in text mode holds no carriage return and is no longer than the raw text |
| Text.UniversalNewlinesKeepsPlainText | feedme/utils.py:7 | text without carriage returns is read unchanged |
| Text.LineLength | feedme/utils.py:7 | a line read by `readlines` ends at the first newline, or at the end of the text |
| Text.SplitLines | feedme/utils.py:7 | the lines of translated text, cut after each newline; `SplitLinesShape` states their shape |
| Text.ReadLines | feedme/utils.py:7 | `f.readlines()` in text mode: universal-newline translation, then `SplitLines`; `ReadLinesNeverEmpty` states that no line is empty |
| Text.FirstLine | feedme/utils.py:37 | `f.readline()` in text mode: the first line of the translated text, or "" at end of file; `FirstLineOfOneLine` states it for a one-line text |
| Text.SplitLinesShape | feedme/utils.py:7 | the lines `readlines` returns are non-empty, concatenate back to the text, hold a newline only at their end, and every line but the last ends with a newline |
| Text.SplitLinesCover | feedme/utils.py:7 | the lines `readlines` returns concatenate back to the text |
| Text.SplitLinesBreakAtEnd | feedme/utils.py:7 | every line `readlines` returns is non-empty and holds a newline only as its last character, and every line but the last ends with one |
| Text.ReadLinesNeverEmpty | feedme/utils.py:7-9 | no line `readlines` returns is `""`, so the blank-line guard never fires |
| Text.FirstLineOfOneLine | feedme/utils.py:37 | `readline` on text without line breaks returns the whole text |
| Numerals.Pad | feedme/__main__.py:119 | a `strftime` field is exactly its width long and made of digits |
| Numerals.DigitsValue | feedme/utils.py:46 | the decimal numeral of a non-negative number reads back as that number |
| Numerals.PadValue | feedme/__main__.py:119 | a zero-padded field holding a value that fits reads back as that value |
| Numerals.PadInjective | feedme/__main__.py:119 | two zero-padded fields of the same width are equal only for equal values |
| Contacts.ContactsOf | feedme/utils.py:5-15 | the contact list is never longer than the file has lines |
| Contacts.ContactOf | feedme/utils.py:10-14 | one line's contribution: the formatted address when `split(",")` yields exactly two pieces, nothing otherwise; `ContactIffOneComma` and `ContactFormat` state it |
| Contacts.ContactsOfStep | feedme/utils.py:7-14 | handling one more line appends that line's contribution, if any, at the end of the list |
| Contacts.ParseContacts | feedme/utils.py:4-15 | the loop over the file's lines, including the blank-line guard and the swallowed unpack error, returns exactly `ContactsOf` of the lines `readlines` yields |
| Contacts.ContactIffOneComma | feedme/utils.py:10-14 | a line yields a contact if and only if it holds exactly one comma |
| Contacts.ContactFormat | feedme/utils.py:11-12 | `name,email` with no other comma yields `"<stripped name> <<stripped email>>"` |
| Contacts.BlankLinesDropped | feedme/utils.py:8-14 | a blank line, with or without its newline, yields no contact |
| Contacts.ContactHasNoComma | feedme/utils.py:12 | a formatted contact never contains a comma |
| Contacts.ContactsOfAppend | feedme/utils.py:7-14 | lines are handled one by one: the contacts of two runs of lines are the concatenation of their contacts |
| Contacts.ContactsHaveNoComma | feedme/utils.py:5-15 | no contact in the parsed list contains a comma |
| Contacts.RecipientsRoundTrip | feedme/__main__.py:136 | splitting the comma-joined recipient string gives back exactly the contact list, in order |
| Contacts.DroppedAlone | feedme/utils.py:10-14 | a line without exactly one comma yields no contact |
| Contacts.MalformedLineDropped | feedme/utils.py:10-14 | a line without exactly one comma is dropped: the contacts of the file are those of the other lines |
| Posts.PostsOf | feedme/utils.py:18-31 | `parse_posts` succeeds if and only if every entry has all four fields, and then yields one post per entry, in order, carrying that entry's fields |
| Posts.ParsePosts | feedme/utils.py:18-31 | the loop returns exactly `PostsOf` of the entries, stopping at the first entry missing a field |
| FileSystem.EnsureDir | feedme/__main__.py:86-88 | after the directory is created it exists, nothing is removed, and the directory tree stays closed under ancestors |
| FileSystem.EnsureDirIdempotent | feedme/__main__.py:87-88 | creating a directory that exists changes nothing, so a second creation is a no-op |
| FileSystem.EnsureDirAddsOnlyAncestors | feedme/__main__.py:88 | `mkdir(parents=True)` adds the directory and its ancestors and nothing else |
| FileSystem.WriteFile | feedme/__main__.py:121-122 | the written file holds the new text and every other file and directory is unchanged |
| Feeds.Namespace | feedme/__main__.py:86 | the namespace path is the output folder followed by the template name as one more component |
| Feeds.FeedDatetime | feedme/__main__.py:91 | the feed timestamp: the parse of the `updated` text, absent when the field is missing or the parse fails |
| Feeds.Email | feedme/__main__.py:135-137 | the message `create_message(sender, ",".join(contacts), "<template_name> Posts", html)`; `EmailRule` states when it is sent |
| Watermark.HtmlIsNotTracker | feedme/__main__.py:119 | a digest page `<stamp>.html` never lands on the namespace's TRACKER file |
| Watermark.GetTrackerDatetime | feedme/utils.py:34-40 | the watermark read: the parsed first line of the TRACKER file, absent when the file is missing or unparsable; `SetThenGet` and `TruncatedReadsAbsent` state it |
| Watermark.Decode | feedme/utils.py:38 | `fromisoformat` of the representation: the instant a numeral denotes, absent for any other text; `DecodeEncode` states the round trip |
| Watermark.Encode | feedme/utils.py:46 | the TRACKER text of an instant is a single line |
| Watermark.DecodeEncode | feedme/utils.py:38 | parsing the text written for an instant gives back that instant |
| Watermark.SetTrackerDatetime | feedme/utils.py:43-48 | the write touches no directory, message or file other than the TRACKER, never raises, and keeps the tree well formed |
| Watermark.SetThenGet | feedme/utils.py:34-48 | after a successful write, reading the watermark gives back the instant written |
| Watermark.TruncatedReadsAbsent | feedme/utils.py:34-48 | a write that fails after `open` truncated the file leaves a watermark that reads as absent |
| Watermark.SetTouchesOnlyTracker | feedme/utils.py:43-48 | whatever the fault, the files are unchanged or only the TRACKER changed, to the full text or to "" |
| DigestNames.DayStamp | feedme/app.py:139 | a `%Y%m%d` name is 8 characters long |
| DigestNames.SecondStamp | feedme/__main__.py:119 | a `%Y%m%d%H%M%S` name is 14 characters long |
| DigestNames.DayStampIffSameDay | feedme/app.py:139-142 | two clock readings get the same day name if and only if they fall on the same day |
| DigestNames.SecondStampInjective | feedme/__main__.py:119 | two clock readings get the same second name only when they are the same second |
| Pipeline.FinishFacts | feedme/__main__.py:140-142 | the final step writes only the TRACKER, and only with a known feed timestamp, and afterwards the watermark reads as that timestamp when the write succeeded |
| Pipeline.Run | feedme/__main__.py:71-142 | `main`: the outcome and the state after a run; the lemmas below state its properties and `Orchestrator.Workspace.Run` is proved to compute it |
| Pipeline.Skip | feedme/__main__.py:97-100 | the freshness check: not forced, both timestamps known, watermark not older; `SkipRule` states it at run level |
| Pipeline.Notify | feedme/__main__.py:128-142 | the email step and the tracker update after it; `NotifyFacts` states its outcomes and effects |
| Pipeline.Finish | feedme/__main__.py:140-142 | the tracker update that closes a run; `FinishFacts` states its effect |
| Pipeline.DigestPath | feedme/__main__.py:119 | `<namespace>/<%Y%m%d%H%M%S>.html`; `DigestPathsDistinct` states that distinct seconds give distinct paths |
| Pipeline.NotifyFacts | feedme/__main__.py:128-142 | the steps after the digest write end "contacts unreadable" exactly when a client is configured and the contacts file cannot be opened, "delivery failed" exactly when `send_message` raises for a non-empty contact list, and completed otherwise; they touch no file except the TRACKER, which changes only on completion with a known feed timestamp |
| Pipeline.ExitFacts | feedme/__main__.py:97-113 | the run is "already processed" exactly when the freshness check fires, and "template not found" exactly when that check passes and the template is missing; a run that does not render only creates the namespace directory |
| Pipeline.ProceedFacts | feedme/__main__.py:86-142 | once the feed has entries: the namespace directory is created; the freshness and template checks decide the early outcomes, and the contacts file and `send_message` decide the outcome of a rendering run; a rendering run saves the digest; no file other than the digest and the TRACKER changes; the watermark changes only on completion |
| Pipeline.ProceedOutcomes | feedme/__main__.py:86-113 | once the feed has entries the namespace directory is created, the freshness and template checks decide the early outcomes in both directions, and an early outcome writes no file and sends no message |
| Pipeline.ProceedFrame | feedme/__main__.py:115-142 | a run writes no file other than its digest and the TRACKER |
| Pipeline.ProceedDigest | feedme/__main__.py:115-122 | a run that passes both checks ends with its rendered digest saved under its own name |
| Pipeline.ProceedTracker | feedme/__main__.py:140-142 | the TRACKER changes only on a completed run with a known feed timestamp, and then reads back as that timestamp when the write succeeds |
| Pipeline.ProceedEmail | feedme/__main__.py:128-138 | a run that renders ends "contacts unreadable" exactly when a client is configured and the contacts file cannot be opened, "delivery failed" exactly when `send_message` raises for a non-empty contact list, and completes exactly when there is no client, no contact, or a successful send |
| Pipeline.EarlyExitsHaveNoEffect | feedme/__main__.py:73-84 | a failed fetch and a feed without entries end the run with their own outcomes (in both directions) and change nothing |
| Pipeline.NamespaceCreatedFirst | feedme/__main__.py:86-88 | once the feed has entries the namespace directory exists after the run, whatever the outcome |
| Pipeline.SkipRule | feedme/__main__.py:90-102 | the run is skipped if and only if it is not forced, the feed timestamp and the watermark are both known, and the watermark is not older; a skipped run only creates the namespace directory |
| Pipeline.UnknownStampNeverSkips | feedme/__main__.py:90-100 | a missing or unparsable feed timestamp never skips the run and never changes the TRACKER |
| Pipeline.MissingTemplateWritesNothing | feedme/__main__.py:109-113 | "template not found" happens exactly when the run passes the freshness check without a template, and then no file is written and no email is sent |
| Pipeline.DigestWritten | feedme/__main__.py:115-122 | a run that passes both checks saves the rendered digest under its second-resolution name, whatever then happens to the email |
| Pipeline.EmailRule | feedme/__main__.py:128-138 | a message goes out if and only if the run renders, a client is configured, the contact list is non-empty and delivery succeeds; it is then one message from the sender to the comma-joined contacts, with subject "<template_name> Posts" and the digest as body |
| Pipeline.NoClientIgnoresContacts | feedme/__main__.py:128-130 | without an email client the contacts file has no influence on the run |
| Pipeline.TrackerWrittenLast | feedme/__main__.py:128-142 | the TRACKER changes only in a run that completes with a known feed timestamp, and then reads back as that timestamp when the write succeeds; a run that renders completes exactly when there is no client, no contact, or a successful send |
| Pipeline.FailedSendKeepsTracker | feedme/__main__.py:128-142 | with a client configured, an unreadable contacts file or a raising `send_message` ends the run unfinished and leaves the TRACKER as it was |
| Pipeline.RepeatRunIsSkipped | feedme/__main__.py:97-102 | after a completed run that stored its watermark, an unforced run on a feed that has not advanced is skipped and changes nothing |
| Pipeline.ForcedRunOverwrites | feedme/__main__.py:97-142 | a forced run that has entries, a known feed timestamp and a template, with no mail client and a clean TRACKER write, completes and stores that timestamp whatever the watermark held, even a later one |
| Pipeline.UnforcedRunAdvancesWatermark | feedme/__main__.py:97-142 | an unforced run that completes over a readable watermark had a feed timestamp later than it |
| Pipeline.DistinctSecondsKeepDigests | feedme/__main__.py:116-122 | a later run at a different second keeps the digest an earlier run saved |
| Pipeline.DigestPathsDistinct | feedme/__main__.py:119 | runs at different seconds get different digest paths |
| Pipeline.RunFrame | feedme/__main__.py:71-142 | a run writes no file other than its digest and the TRACKER |
| Pipeline.RunKeepsValid | feedme/__main__.py:86-142 | a run keeps the disk a directory tree with every file inside a directory |
| LegacyPipeline.NotifyFacts | feedme/app.py:147-158 | the email step ends Done exactly when the contacts file is readable and delivery succeeds; then it sends one message to the joined contacts and stores the feed timestamp; otherwise nothing is sent and no file changes |
| LegacyPipeline.Run | feedme/app.py:98-158 | the older `main`: the outcome and the state after a run; the lemmas below state its properties and `Orchestrator.Workspace.LegacyRun` is proved to compute it |
| LegacyPipeline.Skip | feedme/app.py:120-122 | the freshness check of the older pipeline: watermark known and not older than the feed timestamp; `SkipRule` states it at run level |
| LegacyPipeline.Notify | feedme/app.py:147-158 | the contacts, the email that is always sent, and the tracker update; `NotifyFacts` states its outcomes and effects |
| LegacyPipeline.DigestPath | feedme/app.py:142 | `<namespace>/<%Y%m%d>.html`; `SameDayOverwrites` states that runs on one day share it |
| LegacyPipeline.ExitFacts | feedme/app.py:117-136 | each early outcome (bad timestamp, already processed, missing entry field, missing template) happens exactly when the earlier checks pass and its own check fails; a run that does not render only creates the namespace directory |
| LegacyPipeline.ProceedFacts | feedme/app.py:113-158 | once the feed has entries: the namespace directory is created; the outcome is decided by the checks in source order; a rendering run saves the digest and then emails; only the digest and the TRACKER can change |
| LegacyPipeline.ProceedOutcomes | feedme/app.py:113-136 | once the feed has entries the namespace directory is created, the checks decide each early outcome in both directions, and a run that does not render writes no file and sends no message |
| LegacyPipeline.ProceedFrame | feedme/app.py:138-158 | a run writes no file other than its digest and the TRACKER |
| LegacyPipeline.ProceedDigest | feedme/app.py:138-145 | a run that renders ends with its digest saved under its day name |
| LegacyPipeline.ProceedNotify | feedme/app.py:147-158 | a completed run sends exactly one message to the joined contacts and then stores the feed timestamp; any other outcome sends nothing and leaves the TRACKER alone |
| LegacyPipeline.EarlyExitsHaveNoEffect | feedme/app.py:100-111 | a failed fetch and a feed without entries end the run with their own outcomes and change nothing |
| LegacyPipeline.UnparsableStampAborts | feedme/app.py:117 | a missing or unparsable feed timestamp aborts the run, which then only created the namespace directory |
| LegacyPipeline.SkipRule | feedme/app.py:117-124 | the run is skipped if and only if the watermark is known and not older than the feed timestamp; nothing forces it |
| LegacyPipeline.MissingFieldAborts | feedme/app.py:127 | an entry lacking a field aborts the run before the template lookup, with nothing written |
| LegacyPipeline.MissingTemplateWritesNothing | feedme/app.py:132-136 | a missing template leaves only the namespace directory behind |
| LegacyPipeline.RenderGetsPosts | feedme/app.py:127-145 | the saved digest is rendered from the day name and `parse_posts` of the entries, one post per entry in order |
| LegacyPipeline.SameDayOverwrites | feedme/app.py:139-145 | two runs write the same digest path if and only if they fall on the same day, and the later one replaces the earlier digest |
| LegacyPipeline.AlwaysEmails | feedme/app.py:147-154 | a rendering run with a readable contacts file and a working client sends exactly one message, even with no contacts, when its recipient string is "" |
| LegacyPipeline.TrackerAfterSend | feedme/app.py:153-158 | the TRACKER changes only after a successful send, and then reads back as the feed timestamp when the write succeeds |
| LegacyPipeline.RepeatRunIsSkipped | feedme/app.py:120-124 | after a completed run that stored its watermark, a run on a feed that has not advanced is skipped and changes nothing |
| LegacyPipeline.WatermarkAdvances | feedme/app.py:120-158 | a completed run over a readable watermark had a later feed timestamp, so the watermark only moves forward |
| LegacyPipeline.RunKeepsValid | feedme/app.py:113-158 | a run keeps the disk a directory tree with every file inside a directory |
| Orchestrator.Workspace.MakeDirs | feedme/__main__.py:88 | the directory and its ancestors are added, files and messages are unchanged, and the tree stays well formed |
| Orchestrator.Workspace.WriteFile | feedme/__main__.py:121-122 | the file holds the new text, nothing else changes, and the tree stays well formed |
| Orchestrator.Workspace.ReadTracker | feedme/utils.py:34-40 | the value read is `GetTrackerDatetime` of the current state, and absent when there is no TRACKER |
| Orchestrator.Workspace.SetTracker | feedme/utils.py:43-48 | truncating open followed by the write leaves exactly the state `SetTrackerDatetime` describes, for every fault |
| Orchestrator.Workspace.SendMessage | feedme/__main__.py:137-138 | the message is appended to the outbox exactly when the client delivers; files and directories are unchanged |
| Orchestrator.Workspace.NotifyStep | feedme/__main__.py:128-142 | the imperative email and tracker steps leave exactly the outcome and state of `Pipeline.Notify` |
| Orchestrator.Workspace.Run | feedme/__main__.py:71-142 | the imperative run leaves exactly the outcome and state of `Pipeline.Run`, and keeps the workspace well formed |
| Orchestrator.Workspace.LegacyNotifyStep | feedme/app.py:147-158 | the imperative email and tracker steps leave exactly the outcome and state of `LegacyPipeline.Notify` |
| Orchestrator.Workspace.LegacyRun | feedme/app.py:98-158 | the imperative run leaves exactly the outcome and state of `LegacyPipeline.Run`, and keeps the workspace well formed |

## Left out

- Feeds.Namespace: the template name is taken as a single path component. `joinpath` with a name holding a separator (a nested template such as `weekly/news`) would go deeper, an absolute name would replace the output folder, and `""` would leave the output folder itself; these cases are not modelled.
- Errors raised by `mkdir` (for instance a permission error, feedme/__main__.py:88 and feedme/app.py:115) escape `main`; the model assumes directory creation succeeds.

- Watermark.Encode: `isoformat` text (date, time and UTC offset) is represented by the signed decimal numeral of the instant, and `fromisoformat` by its parser. The round trip and the one-line shape are kept; the ISO 8601 layout is not.
- Feeds.FeedDatetime: `strptime` with the RFC 822 format is a parameter (`parseUpdated`) that returns `None` where it would raise. The packaged pipeline reads the top-level `feed["updated"]`, the older one `feed.feed["updated"]`; both are modelled as the feed's `updated` text.
- Comparing an offset-aware feed timestamp with a hand-edited, naive TRACKER value raises `TypeError` in the freshness check. Instants are plain integers here, so this crash is not modelled.
- `feedparser.parse`, the Jinja environment, `template.render` and the mail clients' `create_message` and `send_message` internals are parameters: a fetch result, a template-exists flag, a render function and a delivers flag.
- The packaged pipeline also passes `feed.feed` metadata to the template. The render parameter receives only the clock and the entries.
- `webbrowser.open` on the saved digest (feedme/__main__.py:123-126) has no effect on files, mail or the watermark and swallows its errors, so it is not modelled.
- Orchestrator.Workspace.WriteFile: I/O errors while saving the digest, and a file already sitting at the namespace path, are not modelled. `exists()` and `mkdir` treat the path only as a directory.
- An exception raised by `render`, or a template that fails to compile, is not modelled. Only a missing template is.
- DigestNames.DayStamp: years before 1000 and platform differences in `strftime` padding are not modelled. Clock readings are well formed with four-digit years.
- Command-line parsing, YAML configuration loading, logging and the `run`/`__main__` entry points are thin I/O wrappers and are not modelled. The older pipeline's command line still defines `--ignore-tracker`, but `main` never receives it, so that version has no force flag.
- The contacts file's character decoding is not modelled. Its text is given as already decoded characters.
