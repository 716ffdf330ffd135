/** `TelegramAnalyzer`: the statistics record and the raw message log, updated
    in place by `process_message`, `collect_message` and `search_messages`. */
module Analyzer {
  import opened Telegram
  import opened Aggregation
  import opened Discovery
  import opened Traversal

  /** The search bound `search_messages` uses when none is given. */
  const DEFAULT_LIMIT: nat := 3000

  class TelegramAnalyzer {
    /** `self.stats` */
    var stats: Stats
    /** `self.data`: the raw message log. */
    var data: seq<string>

    ghost predicate Valid()
      reads this
    {
      stats.Valid()
    }

    /** `__init__`: all counters at zero, empty set and histograms, empty log. */
    constructor ()
      ensures Valid()
      ensures stats == EMPTY_STATS && data == []
    {
      stats := EMPTY_STATS;
      data := [];
      EmptyStatsIsValid();
    }

    /** `collect_message`: append the text when the message has one. */
    method CollectMessage(m: Message)
      modifies this
      ensures data == old(data) + Collected(m)
      ensures stats == old(stats)
    {
      if m.text.Some? {
        data := data + [m.text.value];
      }
    }

    /** `process_message`: update the statistics record for one message found
        by `foundByTerm`; the log is untouched. */
    method ProcessMessage(m: Message, terms: Terms, foundByTerm: string)
      requires Valid()
      modifies this
      ensures Valid()
      ensures stats == Process(old(stats), m, terms, foundByTerm)
      ensures data == old(data)
    {
      stats := stats.(totalPosts := stats.totalPosts + 1);
      if m.peer.Some? && m.peer.value.PeerChannel? {
        stats := stats.(uniqueChannels := stats.uniqueChannels + {m.peer.value.channelId});
      } else {
        assert old(stats).uniqueChannels + ChannelOf(m) == old(stats).uniqueChannels;
      }
      assert stats.uniqueChannels == old(stats).uniqueChannels + ChannelOf(m);
      stats := stats.(views := stats.views + ViewsOf(m));
      stats := stats.(forwards := stats.forwards + ForwardsOf(m));
      if m.replies.Structured? {
        stats := stats.(replies := stats.replies + m.replies.replies);
      }
      assert stats.replies == old(stats).replies + RepliesOf(m);
      stats := stats.(postsByDay := stats.postsByDay.Increment(m.day));
      ghost var tallied := stats;
      assert tallied == Tally(old(stats), m) by {
        var t := Tally(old(stats), m);
        assert tallied.totalPosts == t.totalPosts && tallied.uniqueChannels == t.uniqueChannels;
        assert tallied.views == t.views && tallied.forwards == t.forwards && tallied.replies == t.replies;
        assert tallied.postsByDay == t.postsByDay && tallied.mentions == t.mentions;
      }
      for i := 0 to |terms|
        invariant stats == tallied.(mentions := MentionsAfter(old(stats).mentions, terms[..i], foundByTerm))
        invariant data == old(data)
      {
        MentionsAfterStep(old(stats).mentions, terms, foundByTerm, i);
        if foundByTerm in terms[i].aliases {
          stats := stats.(mentions := stats.mentions.Increment(terms[i].name));
        }
      }
      assert terms[..|terms|] == terms;
    }

    /** `search_messages`: keep the eligible channels, then feed every message
        of every (university, alias, channel) search to `process_message` and
        `collect_message`. Returns the names of the dialogs whose lookup
        failed, in the order their errors were logged. */
    method SearchMessages(candidates: seq<Candidate>, terms: Terms, search: Search, limit: nat := DEFAULT_LIMIT)
      returns (skipped: seq<string>)
      requires Valid()
      modifies this
      ensures Valid()
      ensures skipped == FailedNames(candidates)
      ensures stats == ProcessAll(old(stats), terms, Observations(terms, EligibleDialogs(candidates), search, limit))
      ensures data == old(data) + Texts(Observations(terms, EligibleDialogs(candidates), search, limit))
    {
      var dialogs;
      dialogs, skipped := DiscoverChannels(candidates);
      ghost var done: seq<Observation> := [];
      for i := 0 to |terms|
        invariant Valid()
        invariant done == Observations(terms[..i], dialogs, search, limit)
        invariant stats == ProcessAll(old(stats), terms, done)
        invariant data == old(data) + Texts(done)
      {
        ghost var found := AliasesObs(terms[i].aliases, dialogs, search, limit);
        SearchUniversity(dialogs, terms, terms[i].aliases, search, limit);
        ObservationsStep(terms, dialogs, search, limit, i);
        ProcessAllConcat(old(stats), terms, done, found);
        LogExtends(old(data), done, found);
        done := done + found;
      }
      assert terms[..|terms|] == terms;
    }

    /** The loop over one university's aliases. */
    method SearchUniversity(dialogs: seq<Dialog>, terms: Terms, aliases: seq<string>, search: Search, limit: nat)
      requires Valid()
      modifies this
      ensures Valid()
      ensures stats == ProcessAll(old(stats), terms, AliasesObs(aliases, dialogs, search, limit))
      ensures data == old(data) + Texts(AliasesObs(aliases, dialogs, search, limit))
    {
      ghost var done: seq<Observation> := [];
      for j := 0 to |aliases|
        invariant Valid()
        invariant done == AliasesObs(aliases[..j], dialogs, search, limit)
        invariant stats == ProcessAll(old(stats), terms, done)
        invariant data == old(data) + Texts(done)
      {
        ghost var found := ChannelsObs(dialogs, aliases[j], search, limit);
        SearchTerm(dialogs, terms, aliases[j], search, limit);
        AliasesObsStep(aliases, dialogs, search, limit, j);
        ProcessAllConcat(old(stats), terms, done, found);
        LogExtends(old(data), done, found);
        done := done + found;
      }
      assert aliases[..|aliases|] == aliases;
    }

    /** The loop over the kept dialogs for one search term. */
    method SearchTerm(dialogs: seq<Dialog>, terms: Terms, term: string, search: Search, limit: nat)
      requires Valid()
      modifies this
      ensures Valid()
      ensures stats == ProcessAll(old(stats), terms, ChannelsObs(dialogs, term, search, limit))
      ensures data == old(data) + Texts(ChannelsObs(dialogs, term, search, limit))
    {
      ghost var done: seq<Observation> := [];
      for k := 0 to |dialogs|
        invariant Valid()
        invariant done == ChannelsObs(dialogs[..k], term, search, limit)
        invariant stats == ProcessAll(old(stats), terms, done)
        invariant data == old(data) + Texts(done)
      {
        var messages := search(dialogs[k].entity, term, limit);
        ghost var found := Tagged(messages, term);
        FeedStream(messages, terms, term);
        ChannelsObsStep(dialogs, term, search, limit, k);
        ProcessAllConcat(old(stats), terms, done, found);
        LogExtends(old(data), done, found);
        done := done + found;
      }
      assert dialogs[..|dialogs|] == dialogs;
    }

    /** The loop over one search stream: every message goes to
        `process_message` with the term that found it, then to
        `collect_message`. */
    method FeedStream(messages: seq<Message>, terms: Terms, term: string)
      requires Valid()
      modifies this
      ensures Valid()
      ensures stats == ProcessAll(old(stats), terms, Tagged(messages, term))
      ensures data == old(data) + Texts(Tagged(messages, term))
    {
      ghost var done: seq<Observation> := [];
      for l := 0 to |messages|
        invariant Valid()
        invariant done == Tagged(messages[..l], term)
        invariant stats == ProcessAll(old(stats), terms, done)
        invariant data == old(data) + Texts(done)
      {
        var o := Observation(messages[l], term);
        TaggedStep(messages, term, l);
        ProcessAllAppend(old(stats), terms, done, o);
        LogAppends(old(data), done, o);
        ProcessMessage(messages[l], terms, term);
        CollectMessage(messages[l]);
        done := done + [o];
      }
      assert messages[..|messages|] == messages;
    }
  }
}
