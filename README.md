# Telegram university-mentions analyzer, modelled in Dafny

`TelegramAnalyzer` searches the Telegram channels a user is subscribed to for
mentions of universities and aggregates statistics about the posts it finds.
This project models its core:

- the search configuration `__TERMS__`: university key to lower-case aliases;
- the constructor, which starts every counter at zero and the log empty;
- `search_messages`. It keeps the dialogs that are channels with more than
  100 participants; a lookup that raises is logged and skipped. Then, for
  every university, alias and kept channel, it hands every message the
  search yields to `process_message` and then to `collect_message`;
- `process_message`. It counts the post and records its channel. It adds
  views, forwards and replies, where a missing or `None` value counts as
  zero. It bumps the post's day, and bumps every university whose alias list
  holds the alias that found the post;
- `collect_message`, which appends the post's text to the raw log;
- `get_statistics`: the rows of the metric table;
- `plot_statistics`: the sorted date axis, with the post counts aligned to it.

The modules follow the program's structure:

- `Telegram`: the shapes read from the client, and the configuration.
- `Counters`: `defaultdict(int)` as a map plus the order in which keys were
  first inserted.
- `LexOrder`: Python's string `<` and `sorted`.
- `Aggregation`: the statistics record. Also `process_message` and
  `collect_message` as functions on values, and their folds over a run.
- `Discovery`: the channel filter of `search_messages`.
- `Traversal`: the nested search loops, spelled out as the sequence of
  (message, alias) observations they produce.
- `Export`: the statistics rows and the date axis.
- `Analyzer`: the class `TelegramAnalyzer`. Its methods update `stats` and
  `data` in place and are proved against the functions above.
- `Scenarios`: the situations the repository's unit tests set up, derived
  from the general lemmas.

The Telegram client is a parameter:

- the dialog list comes in as a sequence of candidates, each with the answer
  its full-channel lookup gives;
- the message search is a function from (entity, term, limit) to the
  messages the stream yields.

## Model

| member | source | states |
|---|---|---|
| Telegram.SEARCH_TERMS | universities_crawler.py:10-13 | `__TERMS__`: `спбгу` with its five aliases and `мгу` with its three, already lower-cased, in that order |
| Telegram.AliasCount | universities_crawler.py:10-13 | the number of aliases summed over the universities, i.e. the number of searches made per kept channel |
| Scenarios.SearchTermsIsDict | universities_crawler.py:10-13 | the configuration's university keys are distinct, as dictionary keys are |
| Scenarios.SearchTermsHaveEightAliases | universities_crawler.py:10-13 | the configuration has 5 + 3 = 8 aliases |
| Counters.Counter.Increment | universities_crawler.py:88 | `d[k] += 1` on a `defaultdict(int)`: k's count grows by one from 0 when missing, every other key keeps its count, k is added to the keys, and a new key is appended to the insertion order; validity is kept |
| Counters.EmptyIsValid | universities_crawler.py:29-30 | an empty `defaultdict(int)` satisfies the counter invariant |
| Aggregation.EmptyStatsIsValid | universities_crawler.py:23-31 | the initial statistics record satisfies the invariant |
| Analyzer.TelegramAnalyzer.constructor | universities_crawler.py:16-32 | every counter is zero, the channel set and both histograms are empty, and the log is empty |
| Aggregation.ChannelOf | universities_crawler.py:78-79 | the channel id a message contributes: its peer's `channel_id` when the peer is a channel, otherwise none (partner: `ProcessEffect`, `ChannelsInIff`) |
| Aggregation.ViewsOf | universities_crawler.py:81 | `getattr(message, 'views', 0) or 0`: the views, or 0 when missing or `None` (partner: `ProcessEffect`) |
| Aggregation.ForwardsOf | universities_crawler.py:82 | the same for forwards |
| Aggregation.RepliesOf | universities_crawler.py:83-85 | the reply count of a structured replies value, and 0 for a missing, `None` or `int` value |
| Aggregation.Tally | universities_crawler.py:76-88 | the record after every update `process_message` makes before its university loop (partner: `ProcessEffect`) |
| Aggregation.MentionsAfter | universities_crawler.py:90-92 | the mention loop keeps the counter valid, never drops a key, and keeps the old insertion order as a prefix |
| Aggregation.MentionsAfterStep | universities_crawler.py:90-92 | one more university in the loop increments its key exactly when it owns the term |
| Aggregation.NewMentions | universities_crawler.py:90-92 | the universities, in configuration order, that own the term and had no count yet |
| Aggregation.MentionsAfterKeys | universities_crawler.py:90-92 | after the loop a university has a count iff it had one before or owns the term |
| Aggregation.MentionsAfterOrder | universities_crawler.py:90-92 | with distinct keys, the loop's insertion order is the old order followed by exactly the newly mentioned universities, in configuration order. This order later fixes the order of the exported mention rows |
| Aggregation.Process | universities_crawler.py:74-92 | one `process_message` step keeps the statistics invariant |
| Aggregation.MentionsAfterCounts | universities_crawler.py:90-92 | when keys are distinct, each university's mention count grows by exactly 1 if the finding alias is one of its aliases, and otherwise is unchanged |
| Aggregation.ProcessEffect | universities_crawler.py:74-92 | one call: total_posts + 1. The channel set grows by exactly the message's channel id, if its peer has one. Views and forwards grow by the value, with missing or None counting as 0. Replies grow only for a structured replies value. Only the message's day is bumped, by 1. Mentions grow by 1 for exactly the universities owning the alias. The day histogram's order gains the day at its end iff the day is new. The mention order gains exactly the newly mentioned universities at its end, in configuration order |
| Analyzer.TelegramAnalyzer.ProcessMessage | universities_crawler.py:74-92 | the in-place updates, field by field and then over the universities, leave `stats` equal to `Process` of the old record and the log unchanged |
| Analyzer.TelegramAnalyzer.CollectMessage | universities_crawler.py:69-71 | the log gains the message's text at its end, when the message has one, and nothing else; stats unchanged |
| Aggregation.Collected | universities_crawler.py:69-71 | what one `collect_message` call appends: the text when the message has one, else nothing (partner: `TextsAreTheMessageTexts`) |
| Aggregation.Texts | universities_crawler.py:66-71 | what `collect_message` appends to `self.data` over a run of observations, in order: each message's text when it has one (partners: `TextsConcat`, `TextsAreTheMessageTexts`, and the log clause of `SearchMessages`) |
| Aggregation.TextsAreTheMessageTexts | universities_crawler.py:69-71 | the log holds at most one entry per observed message; when every message has text, it holds exactly their texts, in order |
| Aggregation.ProcessAll | universities_crawler.py:65 | processing a run of observations keeps the statistics invariant |
| Aggregation.ProcessAllAppend | universities_crawler.py:65 | processing one more observation is one more `process_message` step |
| Aggregation.ProcessAllConcat | universities_crawler.py:54-66 | processing two batches in turn is processing their concatenation, so repeated `search_messages` calls accumulate |
| Aggregation.TextsConcat | universities_crawler.py:66 | the texts collected from two batches are the first batch's texts followed by the second's |
| Aggregation.ProcessAllTotals | universities_crawler.py:76-88 | after a run: total_posts grows by the number of observations, with no deduplication. The channel set grows by the union of their channels. Views, forwards and replies grow by their sums. Each day grows by the number of posts on that day |
| Aggregation.ProcessAllKeepsOrder | universities_crawler.py:88-92 | across a run, both histograms' insertion orders only grow at the end: what was listed stays listed, in place |
| Aggregation.ProcessAllMentions | universities_crawler.py:90-92 | after a run, each university's mention count grows by the number of observations whose alias belongs to it |
| Aggregation.ChannelsInIff | universities_crawler.py:78-79 | a channel id is recorded iff some observed message has it as its peer's channel id |
| Aggregation.SumOfRepeated | universities_crawler.py:81-85 | a run of n copies of one message adds n times its value |
| Discovery.Eligible | universities_crawler.py:44-49 | a dialog is kept when its entity is a channel, its lookup succeeded, and the participant count is not `None` and above 100 (partner: `ThresholdIsStrict`) |
| Discovery.Failed | universities_crawler.py:44-52 | the `except` branch runs: the dialog is a channel and its lookup raised; non-channels are never looked up (partners: `FailedNames`, `FailureIsSkipped`) |
| Discovery.EligibleDialogs | universities_crawler.py:42-50 | the `dialogs` list: the eligible candidates' dialogs, in dialog order (partner: `EligibleDialogsIff`) |
| Discovery.FailedNames | universities_crawler.py:51-52 | the names of the channel dialogs whose lookup raised, in dialog order (partner: `FailureIsSkipped`) |
| Discovery.DiscoverChannels | universities_crawler.py:42-52 | the dialog loop returns exactly the eligible dialogs and the names of the failed lookups, both in dialog order |
| Discovery.EligibleDialogsIff | universities_crawler.py:44-50 | a dialog is kept iff it is some candidate's dialog and that candidate is a channel whose participant count is present and strictly above 100 |
| Discovery.EligibleDialogsAppend | universities_crawler.py:43-52 | the filter works dialog by dialog: the kept and failed lists of a concatenation are the concatenations of the lists |
| Discovery.FailureIsSkipped | universities_crawler.py:45-52 | a lookup that raises drops only that dialog and logs its name; the dialogs before and after are filtered as if it were absent |
| Discovery.ThresholdIsStrict | universities_crawler.py:49 | 100 participants are not enough, 101 are, and a `None` count never is |
| Traversal.Tagged | universities_crawler.py:59-66 | one stream becomes one observation per message, in order, each tagged with the alias that found it |
| Traversal.TaggedStep | universities_crawler.py:59-66 | reading one more message from the stream adds one observation at the end |
| Traversal.ChannelsObs | universities_crawler.py:58-66 | the loop over the kept dialogs for one alias: each dialog's stream, tagged, in dialog order (partners: `ChannelsObsOrigin`, `ChannelsObsComplete`) |
| Traversal.AliasesObs | universities_crawler.py:56-66 | the loop over one university's aliases, in alias order |
| Traversal.Observations | universities_crawler.py:54-66 | the loop over the universities: every observation handed to the aggregator, in loop order (partners: `ObservationOrigin`, `ObservationsComplete`, `ObservationsLength`) |
| Traversal.ChannelsObsStep | universities_crawler.py:58-66 | one more dialog adds its tagged stream at the end |
| Traversal.AliasesObsStep | universities_crawler.py:56-66 | one more alias adds its dialog loop at the end |
| Traversal.ObservationsStep | universities_crawler.py:54-66 | one more university adds its alias loop at the end |
| Traversal.StreamTotal | universities_crawler.py:54-64 | the summed length of every (university, alias, kept dialog) stream |
| Traversal.ChannelsObsLength | universities_crawler.py:58-66 | the dialog loop observes exactly as many messages as its streams yield |
| Traversal.AliasesObsLength | universities_crawler.py:56-66 | the alias loop observes exactly as many messages as its streams yield |
| Traversal.ObservationsLength | universities_crawler.py:54-66 | the traversal observes exactly the summed length of all streams: nothing skipped, nothing deduplicated |
| Traversal.PostsAfterSearch | universities_crawler.py:54-66 | a crawl adds exactly the summed stream length to `total_posts` (the promise test.py:54 checks as 8 × 1) |
| Traversal.ChannelsObsComplete | universities_crawler.py:58-65 | every message of the stream of any kept dialog is observed, tagged with the alias |
| Traversal.AliasesObsComplete | universities_crawler.py:56-65 | every message of any alias's stream in any kept dialog is observed, tagged with that alias |
| Traversal.ObservationsComplete | universities_crawler.py:54-65 | the converse of `ObservationOrigin`: every message yielded by the search for any alias of any university in any kept dialog is handed to the aggregator with that alias |
| Traversal.ChannelsObsCount | universities_crawler.py:58-66 | when every stream yields between lo and hi messages, the loop over the kept dialogs observes between lo and hi times as many messages as there are dialogs |
| Traversal.AliasesObsCount | universities_crawler.py:56-66 | the alias loop multiplies those bounds by the number of aliases |
| Traversal.ObservationsCount | universities_crawler.py:54-66 | the whole traversal observes between lo·dialogs·aliases and hi·dialogs·aliases messages: one search per (alias, dialog), counted without deduplication |
| Traversal.NoDialogsNoObservations | universities_crawler.py:54-66 | with no kept dialog nothing is observed |
| Traversal.AliasesObsEmpty | universities_crawler.py:56-58 | with no kept dialog the alias loop observes nothing |
| Traversal.ChannelsObsOrigin | universities_crawler.py:58-65 | every observation of the dialog loop carries its alias and comes from that alias's stream in some kept dialog |
| Traversal.AliasesObsOrigin | universities_crawler.py:56-65 | every observation of the alias loop carries one of the university's aliases and comes from that alias's stream in some kept dialog |
| Traversal.ObservationOrigin | universities_crawler.py:54-65 | every observation's alias belongs to some university, and its message comes from that alias's stream in some kept dialog |
| Analyzer.TelegramAnalyzer.FeedStream | universities_crawler.py:59-66 | the stream loop leaves `stats` as the fold of `process_message` over the stream, and the log with the stream's texts appended |
| Analyzer.TelegramAnalyzer.SearchTerm | universities_crawler.py:58-66 | the dialog loop for one alias: `stats` is the fold over the streams of all kept dialogs, and the log is extended with their texts |
| Analyzer.TelegramAnalyzer.SearchUniversity | universities_crawler.py:56-66 | the alias loop for one university: the same, over all of its aliases |
| Analyzer.TelegramAnalyzer.SearchMessages | universities_crawler.py:34-66 | the limit defaults to 3000. The call returns the names of the failed lookups. It leaves `stats` as `process_message` folded over every (university, alias, kept dialog, message) in loop order, and the log extended with those messages' texts in that order |
| LexOrder.Below | universities_crawler.py:127 | Python's `str <`: the first differing character decides, and a proper prefix sorts first (partners: the order lemmas below) |
| LexOrder.BelowIrreflexive | universities_crawler.py:127 | no string sorts before itself |
| LexOrder.BelowTransitive | universities_crawler.py:127 | the string order is transitive |
| LexOrder.BelowTrichotomy | universities_crawler.py:127 | any two strings are equal or one sorts before the other |
| LexOrder.BelowAsymmetric | universities_crawler.py:127 | two strings never both sort before each other |
| LexOrder.AtMostTransitive | universities_crawler.py:127 | "not after" is transitive |
| LexOrder.Insert | universities_crawler.py:127 | inserting into an ascending list keeps it ascending and adds exactly one element |
| LexOrder.Sorted | universities_crawler.py:127 | `sorted` returns an ascending permutation of its input |
| LexOrder.DistinctAscendingIsStrict | universities_crawler.py:127 | an ascending list without repeats is strictly ascending |
| Export.MentionLabel | universities_crawler.py:108 | the row label `f'Упоминаний вуза {mention[0]}'`: the fixed prefix followed by the university key (partner: `MentionLabelInjective`) |
| Export.MentionLabelInjective | universities_crawler.py:108 | distinct universities get distinct row labels |
| Export.MentionRows | universities_crawler.py:98-116 | one row per `mentions.items()` entry, in order, labelled with the university and holding its count |
| Export.StatisticsRows | universities_crawler.py:94-118 | the table has 5 + (number of mentioned universities) rows. The first five are total posts, the number of distinct channels, views, forwards and replies, under their labels. Then come the universities in first-mention order, each with its count |
| Export.MentionRowsAreTheMentioned | universities_crawler.py:98-116 | a university has a mention row, holding its count, iff its count is positive; no university has two rows |
| Export.MentionRowFor | universities_crawler.py:98-116 | the same, for one university |
| Export.RowIsMentioned | universities_crawler.py:108-116 | a university that has a row has a positive count |
| Export.MentionRowsDistinct | universities_crawler.py:108 | no two mention rows have the same label |
| Export.TwoMentionRowsDiffer | universities_crawler.py:108 | two different mention rows have different labels |
| Export.DateAxis | universities_crawler.py:127-128 | the dates are exactly the histogram's days, strictly ascending, and each count is that day's count |
| Export.DistinctIffSingleOccurrences | universities_crawler.py:127 | a list has no repeats iff no value occurs twice in its multiset, so sorting the key list keeps it repeat-free |
| Scenarios.ProcessOneMessage | test.py:60-68 | one message (channel 123, 100 views, 10 forwards, 5 replies) found by `спбгу` yields 1 post, channel set {123}, 100/10/5 and one mention of `спбгу` |
| Scenarios.RepeatedMessageCountsPerAlias | test.py:38-58 | when every search of one kept dialog yields the same message, that message is counted once per alias (posts, views, forwards, replies) while its channel is recorded once |
| Scenarios.OneObservationPerAlias | test.py:46-50 | that traversal observes the message exactly once per alias |
| Scenarios.SearchCountsEveryAlias | test.py:38-58 | with the crawler's configuration and a 1000-participant channel: 8 posts, 1 channel, 800 views, 80 forwards, 40 replies |
| Scenarios.SmallChannelIsNotSearched | test.py:142-168 | a channel with 50 participants is not searched, and two runs count 0 posts |
| Scenarios.StatisticsTable | test.py:74-111 | the test's record exports exactly the seven expected rows, in order |
| Scenarios.TwoDaysAscending | universities_crawler.py:127-128 | a two-day histogram's axis lists the earlier day first, whatever the insertion order |
| Scenarios.TwoDayAxis | test.py:113-124 | the histogram {2023-01-01: 228, 2023-01-02: 1337} gives the dates in that order with counts 228 and 1337, for either insertion order |
| Scenarios.NewYearBeforeSecondDay | test.py:115-118 | "2023-01-01" sorts before "2023-01-02" |
| Scenarios.PrefixThenBelow | universities_crawler.py:127 | strings that share a prefix compare as the first characters after it do |

## Left out

- The Telegram client is not modelled: `start`, `iter_dialogs`, `get_entity`, `GetFullChannelRequest` and `iter_messages`. The dialog list and the answers to the lookups are inputs, and the search is a function parameter.
- Concurrency is not modelled. The methods are `async` but run one after another, so they are modelled as sequential code.
- An exception raised by a message stream is not modelled. It is not caught in the source and would end the run, so every stream is taken to be complete.
- The `limit` argument is passed on to the search unchanged. That a stream yields at most `limit` messages is the client's promise, not the analyzer's.
- `print` output is not modelled. The error lines of the channel filter are returned instead: `SearchMessages` returns the failing dialogs' names. The progress lines are dropped.
- `message.date.strftime('%Y-%m-%d')` is not modelled: a message carries its rendered day. `str.lower` on the aliases is applied by hand in `SEARCH_TERMS`.
- Analyzer.TelegramAnalyzer.CollectMessage does not model the case where the `message` attribute exists but holds `None`. Python would append `None` to the log; here an absent and a `None` text are the same, and nothing is appended.
- A missing attribute and one holding `None` are the same `Option.None` for views and forwards as well. The source treats them alike there.
- Views, forwards and reply counts are natural numbers. A negative value from the client is not modelled.
- The pandas DataFrame, the CSV files (`get_statistics`, `flush_crawled_data`) and the matplotlib chart are not modelled. What is modelled is the rows, the date axis and the counts handed to them; `flush_crawled_data` writes `data` as it is.
- `main` is not modelled: reading the API credentials from the environment and building the client are I/O.
- Analyzer.TelegramAnalyzer.SearchMessages has its three inner loops as the helper methods `SearchUniversity`, `SearchTerm` and `FeedStream`. Together they run the same loops in the same order.
