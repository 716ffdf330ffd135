/** What `get_statistics` and `plot_statistics` compute before handing it to
    pandas and matplotlib: the metric rows of the statistics table, and the
    date axis of the chart with the post counts aligned to it. */
module Export {
  import opened Counters
  import opened Aggregation
  import opened LexOrder

  /** One row of the `Метрика` / `Значение` table. */
  datatype Row = Row(metric: string, value: nat)

  const TOTAL_POSTS_LABEL := "Всего сообщений"
  const UNIQUE_CHANNELS_LABEL := "Уникальных каналов"
  const VIEWS_LABEL := "Просмотров"
  const FORWARDS_LABEL := "Репостов"
  const REPLIES_LABEL := "Ответов"
  const MENTION_PREFIX := "Упоминаний вуза "

  function MentionLabel(u: string): string {
    MENTION_PREFIX + u
  }

  lemma MentionLabelInjective(u: string, v: string)
    requires MentionLabel(u) == MentionLabel(v)
    ensures u == v
  {
    assert u == MentionLabel(u)[|MENTION_PREFIX|..];
    assert v == MentionLabel(v)[|MENTION_PREFIX|..];
  }

  /** One row per `mentions.items()` entry, in the given key order. */
  function MentionRows(c: Counter, keys: seq<string>): (rows: seq<Row>)
    ensures |rows| == |keys|
    ensures forall i :: 0 <= i < |keys| ==> rows[i] == Row(MentionLabel(keys[i]), c.Get(keys[i]))
    decreases |keys|
  {
    if keys == [] then []
    else
      var k := keys[|keys| - 1];
      MentionRows(c, keys[..|keys| - 1]) + [Row(MentionLabel(k), c.Get(k))]
  }

  /** The table `get_statistics` builds: the five base metrics, then one row
      per university in the order it was first mentioned. */
  function StatisticsRows(s: Stats): (rows: seq<Row>)
    ensures |rows| == 5 + |s.mentions.order|
    ensures rows[0] == Row(TOTAL_POSTS_LABEL, s.totalPosts)
    ensures rows[1] == Row(UNIQUE_CHANNELS_LABEL, |s.uniqueChannels|)
    ensures rows[2] == Row(VIEWS_LABEL, s.views)
    ensures rows[3] == Row(FORWARDS_LABEL, s.forwards)
    ensures rows[4] == Row(REPLIES_LABEL, s.replies)
    ensures forall i :: 0 <= i < |s.mentions.order| ==>
              rows[5 + i] == Row(MentionLabel(s.mentions.order[i]), s.mentions.Get(s.mentions.order[i]))
  {
    [ Row(TOTAL_POSTS_LABEL, s.totalPosts),
      Row(UNIQUE_CHANNELS_LABEL, |s.uniqueChannels|),
      Row(VIEWS_LABEL, s.views),
      Row(FORWARDS_LABEL, s.forwards),
      Row(REPLIES_LABEL, s.replies) ]
    + MentionRows(s.mentions, s.mentions.order)
  }

  /** After the base rows there is exactly one row per university with at
      least one mention, carrying its count, and no university twice. */
  lemma MentionRowsAreTheMentioned(s: Stats)
    requires s.Valid()
    ensures forall u :: s.mentions.Get(u) > 0 <==>
              exists i :: 5 <= i < |StatisticsRows(s)| && StatisticsRows(s)[i] == Row(MentionLabel(u), s.mentions.Get(u))
    ensures forall i, j :: 5 <= i < j < |StatisticsRows(s)| ==> StatisticsRows(s)[i].metric != StatisticsRows(s)[j].metric
  {
    forall u ensures s.mentions.Get(u) > 0 <==>
        exists i :: 5 <= i < |StatisticsRows(s)| && StatisticsRows(s)[i] == Row(MentionLabel(u), s.mentions.Get(u)) {
      MentionRowFor(s, u);
    }
    MentionRowsDistinct(s);
  }

  lemma MentionRowFor(s: Stats, u: string)
    requires s.Valid()
    ensures s.mentions.Get(u) > 0 <==>
              exists i :: 5 <= i < |StatisticsRows(s)| && StatisticsRows(s)[i] == Row(MentionLabel(u), s.mentions.Get(u))
  {
    var rows := StatisticsRows(s);
    if s.mentions.Get(u) > 0 {
      var k := MentionedHasRow(s, u);
      assert rows[5 + k] == Row(MentionLabel(u), s.mentions.Get(u));
    }
    forall i | 5 <= i < |rows| && rows[i] == Row(MentionLabel(u), s.mentions.Get(u))
      ensures s.mentions.Get(u) > 0
    {
      RowIsMentioned(s, u, i);
    }
  }

  /** A mentioned university sits at some position of the first-mention
      order. */
  lemma MentionedHasRow(s: Stats, u: string) returns (k: nat)
    requires s.Valid() && s.mentions.Get(u) > 0
    ensures k < |s.mentions.order| && s.mentions.order[k] == u
  {
    assert u in s.mentions.order;
    k :| 0 <= k < |s.mentions.order| && s.mentions.order[k] == u;
  }

  lemma RowIsMentioned(s: Stats, u: string, i: int)
    requires s.Valid()
    requires 5 <= i < |StatisticsRows(s)| && StatisticsRows(s)[i] == Row(MentionLabel(u), s.mentions.Get(u))
    ensures s.mentions.Get(u) > 0
  {
    var order := s.mentions.order;
    MentionLabelInjective(order[i - 5], u);
    assert order[i - 5] in s.mentions.counts;
  }

  lemma MentionRowsDistinct(s: Stats)
    requires s.Valid()
    ensures forall i, j :: 5 <= i < j < |StatisticsRows(s)| ==> StatisticsRows(s)[i].metric != StatisticsRows(s)[j].metric
  {
    forall i, j | 5 <= i < j < |StatisticsRows(s)| ensures StatisticsRows(s)[i].metric != StatisticsRows(s)[j].metric {
      TwoMentionRowsDiffer(s, i, j);
    }
  }

  lemma TwoMentionRowsDiffer(s: Stats, i: int, j: int)
    requires s.Valid() && 5 <= i < j < |StatisticsRows(s)|
    ensures StatisticsRows(s)[i].metric != StatisticsRows(s)[j].metric
  {
    var order := s.mentions.order;
    var rows := StatisticsRows(s);
    var x, y := order[i - 5], order[j - 5];
    assert rows[i].metric == MentionLabel(x);
    assert rows[j].metric == MentionLabel(y);
    if MentionLabel(x) == MentionLabel(y) {
      MentionLabelInjective(x, y);
    }
  }

  /** The bar chart's data: `sorted(posts_by_day.keys())` and the count of
      each of those days. */
  datatype Axis = Axis(dates: seq<string>, counts: seq<nat>)

  function DateAxis(days: Counter): (a: Axis)
    requires days.Valid()
    ensures |a.dates| == |a.counts| == |days.order|
    ensures StrictlyAscending(a.dates)
    ensures forall d :: d in a.dates <==> d in days.counts
    ensures forall i :: 0 <= i < |a.dates| ==> a.dates[i] in days.counts && a.counts[i] == days.counts[a.dates[i]]
  {
    var dates := Sorted(days.order);
    var counts := seq(|dates|, i requires 0 <= i < |dates| => days.Get(dates[i]));
    assert |dates| == |days.order| by {
      assert |multiset(dates)| == |multiset(days.order)|;
    }
    assert forall d :: d in dates <==> d in days.order by {
      forall d ensures d in dates <==> d in days.order {
        assert d in dates <==> d in multiset(dates);
        assert d in days.order <==> d in multiset(days.order);
      }
    }
    DistinctIffSingleOccurrences(days.order);
    DistinctIffSingleOccurrences(dates);
    DistinctAscendingIsStrict(dates);
    Axis(dates, counts)
  }

  /** A sequence has no repeated element iff every value occurs at most once
      in its multiset. */
  lemma {:induction false} DistinctIffSingleOccurrences(s: seq<string>)
    ensures (forall i, j :: 0 <= i < j < |s| ==> s[i] != s[j]) <==> (forall x :: multiset(s)[x] <= 1)
    decreases |s|
  {
    if s != [] {
      var init := s[..|s| - 1];
      var last := s[|s| - 1];
      assert s == init + [last];
      DistinctIffSingleOccurrences(init);
      if forall i, j :: 0 <= i < j < |s| ==> s[i] != s[j] {
        assert forall i, j :: 0 <= i < j < |init| ==> init[i] != init[j] by {
          forall i, j | 0 <= i < j < |init| ensures init[i] != init[j] {
            assert init[i] == s[i] && init[j] == s[j];
          }
        }
        assert last !in init;
        forall x ensures multiset(s)[x] <= 1 {
          assert multiset(s)[x] == multiset(init)[x] + multiset([last])[x];
        }
      }
      if forall x :: multiset(s)[x] <= 1 {
        forall x ensures multiset(init)[x] <= 1 {
          assert multiset(s)[x] == multiset(init)[x] + multiset([last])[x];
        }
        assert last !in init by {
          assert multiset(s)[last] == multiset(init)[last] + 1;
        }
        forall i, j | 0 <= i < j < |s| ensures s[i] != s[j] {
          if j < |s| - 1 {
            assert init[i] == s[i] && init[j] == s[j];
          } else {
            assert s[i] == init[i];
          }
        }
      }
    }
  }
}
