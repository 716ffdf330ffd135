/** The situations the repository's unit tests set up, derived from the
    general lemmas: one processed message, a crawl of one large channel with
    eight aliases, a crawl of one small channel, the exported table of a given
    record, and the chart axis of a two-day histogram. */
module Scenarios {
  import opened Telegram
  import opened Counters
  import opened LexOrder
  import opened Aggregation
  import opened Discovery
  import opened Traversal
  import opened Export

  /** The configuration's university keys are distinct. */
  lemma SearchTermsIsDict()
    ensures IsDict(SEARCH_TERMS)
  {
    assert SEARCH_TERMS[0].name != SEARCH_TERMS[1].name by {
      assert SEARCH_TERMS[0].name[0] != SEARCH_TERMS[1].name[0];
    }
  }

  /** One message with 100 views, 10 forwards and 5 replies in channel 123,
      found by the alias `спбгу`. */
  lemma ProcessOneMessage(m: Message)
    requires m.peer == Some(PeerChannel(123))
    requires m.views == Some(100) && m.forwards == Some(10) && m.replies == Structured(5)
    ensures Process(EMPTY_STATS, m, SEARCH_TERMS, "спбгу").totalPosts == 1
    ensures Process(EMPTY_STATS, m, SEARCH_TERMS, "спбгу").uniqueChannels == {123}
    ensures Process(EMPTY_STATS, m, SEARCH_TERMS, "спбгу").views == 100
    ensures Process(EMPTY_STATS, m, SEARCH_TERMS, "спбгу").forwards == 10
    ensures Process(EMPTY_STATS, m, SEARCH_TERMS, "спбгу").replies == 5
    ensures Process(EMPTY_STATS, m, SEARCH_TERMS, "спбгу").mentions.Get("спбгу") == 1
  {
    SearchTermsIsDict();
    assert "спбгу" in SEARCH_TERMS[0].aliases;
    assert Mentioned(SEARCH_TERMS, "спбгу", "спбгу");
    ProcessEffect(EMPTY_STATS, m, SEARCH_TERMS, "спбгу");
  }

  /** A crawl over a single kept dialog whose search yields the same single
      message for every alias: each alias counts it again, so the record
      holds one post per alias and that many times each value, but only the
      message's channel. */
  lemma RepeatedMessageCountsPerAlias(terms: Terms, d: Dialog, m: Message, search: Search, limit: nat)
    requires forall t :: search(d.entity, t, limit) == [m]
    ensures var s := ProcessAll(EMPTY_STATS, terms, Observations(terms, [d], search, limit));
            && s.totalPosts == AliasCount(terms)
            && s.uniqueChannels == (if AliasCount(terms) == 0 then {} else ChannelOf(m))
            && s.views == AliasCount(terms) * ViewsOf(m)
            && s.forwards == AliasCount(terms) * ForwardsOf(m)
            && s.replies == AliasCount(terms) * RepliesOf(m)
  {
    var obs := Observations(terms, [d], search, limit);
    OneObservationPerAlias(terms, d, m, search, limit);
    ProcessAllTotals(EMPTY_STATS, terms, obs);
    SumOfRepeated(obs, ViewsOf, m);
    SumOfRepeated(obs, ForwardsOf, m);
    SumOfRepeated(obs, RepliesOf, m);
    forall c ensures c in ChannelsIn(obs) <==> |obs| > 0 && c in ChannelOf(m) {
      ChannelsInIff(obs, c);
    }
  }

  /** The traversal of that dialog observes the message once per alias. */
  lemma OneObservationPerAlias(terms: Terms, d: Dialog, m: Message, search: Search, limit: nat)
    requires forall t :: search(d.entity, t, limit) == [m]
    ensures |Observations(terms, [d], search, limit)| == AliasCount(terms)
    ensures forall i :: 0 <= i < |Observations(terms, [d], search, limit)| ==>
              Observations(terms, [d], search, limit)[i].message == m
  {
    var dialogs := [d];
    forall u, a | u in terms && a in u.aliases ensures StreamsBetween(dialogs, a, search, limit, 1, 1) {
      assert search(d.entity, a, limit) == [m];
    }
    ObservationsCount(terms, dialogs, search, limit, 1, 1);
    var obs := Observations(terms, dialogs, search, limit);
    forall i | 0 <= i < |obs| ensures obs[i].message == m {
      ObservationOrigin(terms, dialogs, search, limit, obs[i]);
      assert search(d.entity, obs[i].alias, limit) == [m];
    }
  }

  lemma SearchTermsHaveEightAliases()
    ensures AliasCount(SEARCH_TERMS) == 8
  {
    assert SEARCH_TERMS[..1][..0] == [];
    assert SEARCH_TERMS[..2][..1] == SEARCH_TERMS[..1];
  }

  /** The crawl the tests set up: one dialog, a channel with 1000
      participants, whose search yields one message (100 views, 10 forwards,
      5 replies, channel 123) for every alias: 8 posts, one channel. */
  lemma SearchCountsEveryAlias(terms: Terms, m: Message, d: Dialog, search: Search, limit: nat)
    requires terms == SEARCH_TERMS
    requires m.peer == Some(PeerChannel(123))
    requires m.views == Some(100) && m.forwards == Some(10) && m.replies == Structured(5)
    requires d.entity.ChannelEntity?
    requires forall t :: search(d.entity, t, limit) == [m]
    ensures var s := ProcessAll(EMPTY_STATS, terms,
              Observations(terms, EligibleDialogs([Candidate(d, Participants(Some(1000)))]), search, limit));
            && s.totalPosts == 8
            && s.uniqueChannels == {123}
            && s.views == 800
            && s.forwards == 80
            && s.replies == 40
  {
    var cs := [Candidate(d, Participants(Some(1000)))];
    assert cs[..|cs| - 1] == [];
    assert Eligible(cs[|cs| - 1]);
    assert EligibleDialogs(cs) == [d];
    SearchTermsHaveEightAliases();
    RepeatedMessageCountsPerAlias(terms, d, m, search, limit);
  }

  /** A channel with 50 participants is not searched: however often the
      crawl runs, no post is counted. */
  lemma SmallChannelIsNotSearched(d: Dialog, search: Search, limit: nat)
    requires d.entity.ChannelEntity?
    ensures var obs := Observations(SEARCH_TERMS, EligibleDialogs([Candidate(d, Participants(Some(50)))]), search, limit);
            && obs == []
            && ProcessAll(ProcessAll(EMPTY_STATS, SEARCH_TERMS, obs), SEARCH_TERMS, obs).totalPosts == 0
  {
    var cs := [Candidate(d, Participants(Some(50)))];
    assert cs[..0] == [];
    assert EligibleDialogs(cs) == [];
    NoDialogsNoObservations(SEARCH_TERMS, search, limit);
  }

  /** A record of 10 posts in 3 channels with 1000 views, 100 forwards, 50
      replies and mentions {спбгу: 7, мгу: 3} exports exactly 7 rows. */
  lemma StatisticsTable(days: Counter)
    ensures var s := Stats(10, {1, 2, 3}, 1000, 100, 50, days,
                           Counter(map["спбгу" := 7, "мгу" := 3], ["спбгу", "мгу"]));
            StatisticsRows(s) == [
              Row("Всего сообщений", 10),
              Row("Уникальных каналов", 3),
              Row("Просмотров", 1000),
              Row("Репостов", 100),
              Row("Ответов", 50),
              Row("Упоминаний вуза спбгу", 7),
              Row("Упоминаний вуза мгу", 3)]
  {
    var s := Stats(10, {1, 2, 3}, 1000, 100, 50, days,
                   Counter(map["спбгу" := 7, "мгу" := 3], ["спбгу", "мгу"]));
    assert |{1, 2, 3}| == 3 by {
      assert {1, 2, 3} == {1, 2} + {3};
    }
    var rows := StatisticsRows(s);
    assert MentionLabel("спбгу") == "Упоминаний вуза спбгу";
    assert MentionLabel("мгу") == "Упоминаний вуза мгу";
    assert s.mentions.Get("спбгу") == 7 && s.mentions.Get("мгу") == 3;
    assert rows[5] == Row("Упоминаний вуза спбгу", 7);
    assert rows[6] == Row("Упоминаний вуза мгу", 3);
  }

  /** A two-day histogram, in either insertion order, is a valid counter. */
  lemma TwoDaysValid(first: string, second: string, x: nat, y: nat, order: seq<string>)
    requires first != second && x >= 1 && y >= 1
    requires order == [first, second] || order == [second, first]
    ensures Counter(map[first := x, second := y], order).Valid()
  {
  }

  /** The axis of any histogram over two days lists the earlier day first. */
  lemma TwoDaysAscending(days: Counter, first: string, second: string)
    requires days.Valid() && |days.order| == 2
    requires first in days.counts && second in days.counts
    requires Below(first, second)
    ensures DateAxis(days).dates == [first, second]
  {
    var a := DateAxis(days);
    BelowIrreflexive(first);
    assert first in a.dates && second in a.dates;
    assert Below(a.dates[0], a.dates[1]);
    BelowAsymmetric(first, second);
  }

  /** The histogram {2023-01-01: 228, 2023-01-02: 1337}: two bars in
      ascending date order. */
  lemma TwoDayAxis(first: string, second: string, order: seq<string>)
    requires first == "2023-01-01" && second == "2023-01-02"
    requires order == [first, second] || order == [second, first]
    ensures Counter(map[first := 228, second := 1337], order).Valid()
    ensures DateAxis(Counter(map[first := 228, second := 1337], order)) == Axis([first, second], [228, 1337])
  {
    NewYearBeforeSecondDay(first, second);
    TwoDaysValid(first, second, 228, 1337, order);
    var days := Counter(map[first := 228, second := 1337], order);
    TwoDaysAscending(days, first, second);
  }

  lemma NewYearBeforeSecondDay(first: string, second: string)
    requires first == "2023-01-01" && second == "2023-01-02"
    ensures Below(first, second)
  {
    assert first[..9] == second[..9] && first[9] < second[9];
    PrefixThenBelow(first, second, 9);
  }

  /** Strings that agree on their first `k` characters and then differ
      compare as their `k`-th characters do. */
  lemma {:induction false} PrefixThenBelow(a: string, b: string, k: nat)
    requires k < |a| && k < |b| && a[..k] == b[..k] && a[k] < b[k]
    ensures Below(a, b)
    decreases k
  {
    if k > 0 {
      assert a[0] == a[..k][0] == b[..k][0] == b[0];
      assert a[1..][..k - 1] == a[..k][1..] == b[..k][1..] == b[1..][..k - 1];
      PrefixThenBelow(a[1..], b[1..], k - 1);
    }
  }
}
