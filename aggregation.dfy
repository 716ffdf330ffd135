/** The statistics record of `TelegramAnalyzer` and what one call of
    `process_message` / `collect_message` does to it, as functions on values;
    then the same over a whole sequence of observed messages. */
module Aggregation {
  import opened Telegram
  import opened Counters

  /** `self.stats`: the counters, the set of channel ids and the two
      `defaultdict(int)` histograms. */
  datatype Stats = Stats(
    totalPosts: nat,
    uniqueChannels: set<int>,
    views: nat,
    forwards: nat,
    replies: nat,
    postsByDay: Counter,
    mentions: Counter)
  {
    ghost predicate Valid() {
      postsByDay.Valid() && mentions.Valid()
    }
  }

  /** The record as `__init__` creates it. */
  const EMPTY_STATS: Stats := Stats(0, {}, 0, 0, 0, EMPTY, EMPTY)

  lemma EmptyStatsIsValid()
    ensures EMPTY_STATS.Valid()
  {
    EmptyIsValid();
  }

  /** The channel id a message adds: one only when `peer_id` exists and has a
      `channel_id`. */
  function ChannelOf(m: Message): set<int> {
    match m.peer
    case Some(PeerChannel(c)) => {c}
    case _ => {}
  }

  /** `getattr(message, 'views', 0) or 0` */
  function ViewsOf(m: Message): nat {
    match m.views
    case Some(v) => v
    case None => 0
  }

  /** `getattr(message, 'forwards', 0) or 0` */
  function ForwardsOf(m: Message): nat {
    match m.forwards
    case Some(f) => f
    case None => 0
  }

  /** `replies.replies` when `replies` is truthy and not an `int`, else 0. */
  function RepliesOf(m: Message): nat {
    match m.replies
    case Structured(n) => n
    case _ => 0
  }

  /** Everything `process_message` updates before its university loop. */
  function Tally(s: Stats, m: Message): Stats {
    s.(totalPosts := s.totalPosts + 1,
       uniqueChannels := s.uniqueChannels + ChannelOf(m),
       views := s.views + ViewsOf(m),
       forwards := s.forwards + ForwardsOf(m),
       replies := s.replies + RepliesOf(m),
       postsByDay := s.postsByDay.Increment(m.day))
  }

  /** The university loop of `process_message`: every university whose alias
      list contains the term gets one more mention (the loop does not stop at
      the first match). */
  function MentionsAfter(c: Counter, terms: Terms, term: string): (r: Counter)
    ensures c.Valid() ==> r.Valid()
    ensures forall k :: k in c.counts ==> k in r.counts
    ensures c.order <= r.order
    decreases |terms|
  {
    if terms == [] then c
    else
      var before := MentionsAfter(c, terms[..|terms| - 1], term);
      var u := terms[|terms| - 1];
      if term in u.aliases then before.Increment(u.name) else before
  }

  /** The university loop after one more university. */
  lemma MentionsAfterStep(c: Counter, terms: Terms, term: string, i: nat)
    requires i < |terms|
    ensures MentionsAfter(c, terms[..i + 1], term)
            == if term in terms[i].aliases then MentionsAfter(c, terms[..i], term).Increment(terms[i].name)
               else MentionsAfter(c, terms[..i], term)
  {
    assert terms[..i + 1][..i] == terms[..i];
  }

  /** `process_message(message, search_terms, found_by_term)` */
  function Process(s: Stats, m: Message, terms: Terms, term: string): (r: Stats)
    ensures s.Valid() ==> r.Valid()
  {
    Tally(s, m).(mentions := MentionsAfter(s.mentions, terms, term))
  }

  /** `found_by_term` is one of university `u`'s aliases. */
  ghost predicate Mentioned(terms: Terms, u: string, term: string) {
    exists i :: 0 <= i < |terms| && terms[i].name == u && term in terms[i].aliases
  }

  lemma {:induction false} MentionsAfterCounts(c: Counter, terms: Terms, term: string, u: string)
    requires IsDict(terms)
    ensures MentionsAfter(c, terms, term).Get(u) == c.Get(u) + (if Mentioned(terms, u, term) then 1 else 0)
    decreases |terms|
  {
    if terms != [] {
      var init := terms[..|terms| - 1];
      var last := terms[|terms| - 1];
      MentionsAfterCounts(c, init, term, u);
      if Mentioned(terms, u, term) && last.name != u {
        var i :| 0 <= i < |terms| && terms[i].name == u && term in terms[i].aliases;
        assert init[i] == terms[i];
      }
      if Mentioned(init, u, term) {
        var i :| 0 <= i < |init| && init[i].name == u && term in init[i].aliases;
        assert terms[i] == init[i];
        assert last.name != u;
      }
    }
  }

  /** The universities, in `terms` order, that own `term` and are not yet
      keys of the counter: the keys the university loop creates. */
  function NewMentions(known: set<string>, terms: Terms, term: string): seq<string>
    decreases |terms|
  {
    if terms == [] then []
    else
      var u := terms[|terms| - 1];
      NewMentions(known, terms[..|terms| - 1], term) + (if term in u.aliases && u.name !in known then [u.name] else [])
  }

  /** After the university loop the keys are the old keys and the
      universities owning the term. */
  lemma {:induction false} MentionsAfterKeys(c: Counter, terms: Terms, term: string, k: string)
    ensures k in MentionsAfter(c, terms, term).counts <==> k in c.counts || Mentioned(terms, k, term)
    decreases |terms|
  {
    if terms != [] {
      var init := terms[..|terms| - 1];
      var last := terms[|terms| - 1];
      MentionsAfterKeys(c, init, term, k);
      if Mentioned(terms, k, term) && !(last.name == k && term in last.aliases) {
        var i :| 0 <= i < |terms| && terms[i].name == k && term in terms[i].aliases;
        assert init[i] == terms[i];
      }
      if Mentioned(init, k, term) {
        var i :| 0 <= i < |init| && init[i].name == k && term in init[i].aliases;
        assert terms[i] == init[i];
      }
    }
  }

  /** The university loop keeps the old insertion order and appends the
      universities it mentions for the first time, in `terms` order; this
      order fixes the order of the exported mention rows. */
  lemma {:induction false} MentionsAfterOrder(c: Counter, terms: Terms, term: string)
    requires IsDict(terms)
    ensures MentionsAfter(c, terms, term).order == c.order + NewMentions(c.counts.Keys, terms, term)
    decreases |terms|
  {
    if terms != [] {
      var init := terms[..|terms| - 1];
      var last := terms[|terms| - 1];
      assert IsDict(init) by {
        forall i, j | 0 <= i < j < |init| ensures init[i].name != init[j].name {
          assert init[i] == terms[i] && init[j] == terms[j];
        }
      }
      MentionsAfterOrder(c, init, term);
      if term in last.aliases {
        MentionsAfterKeys(c, init, term, last.name);
        assert !Mentioned(init, last.name, term) by {
          forall i | 0 <= i < |init| ensures init[i].name != last.name {
            assert init[i] == terms[i];
          }
        }
      }
    }
  }

  /** One call of `process_message`: exactly one more post; the channel set
      gains the message's channel id, if any, and loses nothing; views,
      forwards and replies grow by the message's values with absent fields
      counted as 0; only the message's day gets one more post; exactly the
      universities owning the term get one more mention. */
  lemma ProcessEffect(s: Stats, m: Message, terms: Terms, term: string)
    requires IsDict(terms)
    ensures Process(s, m, terms, term).totalPosts == s.totalPosts + 1
    ensures s.uniqueChannels <= Process(s, m, terms, term).uniqueChannels
    ensures forall c :: c in Process(s, m, terms, term).uniqueChannels <==>
              c in s.uniqueChannels || m.peer == Some(PeerChannel(c))
    ensures Process(s, m, terms, term).views == s.views + ViewsOf(m)
    ensures Process(s, m, terms, term).forwards == s.forwards + ForwardsOf(m)
    ensures Process(s, m, terms, term).replies == s.replies + RepliesOf(m)
    ensures forall d :: Process(s, m, terms, term).postsByDay.Get(d) ==
              s.postsByDay.Get(d) + (if d == m.day then 1 else 0)
    ensures Process(s, m, terms, term).postsByDay.order ==
              s.postsByDay.order + (if m.day in s.postsByDay.counts then [] else [m.day])
    ensures forall u :: Process(s, m, terms, term).mentions.Get(u) ==
              s.mentions.Get(u) + (if Mentioned(terms, u, term) then 1 else 0)
    ensures Process(s, m, terms, term).mentions.order ==
              s.mentions.order + NewMentions(s.mentions.counts.Keys, terms, term)
  {
    MentionsAfterOrder(s.mentions, terms, term);
    forall u ensures Process(s, m, terms, term).mentions.Get(u) ==
                     s.mentions.Get(u) + (if Mentioned(terms, u, term) then 1 else 0) {
      MentionsAfterCounts(s.mentions, terms, term, u);
    }
  }

  /** One message delivered by the search, with the alias that found it. */
  datatype Observation = Observation(message: Message, alias: string)

  /** `process_message` applied to each observation in turn. */
  function ProcessAll(s: Stats, terms: Terms, obs: seq<Observation>): (r: Stats)
    ensures s.Valid() ==> r.Valid()
    decreases |obs|
  {
    if obs == [] then s
    else
      var o := obs[|obs| - 1];
      Process(ProcessAll(s, terms, obs[..|obs| - 1]), o.message, terms, o.alias)
  }

  lemma ProcessAllAppend(s: Stats, terms: Terms, obs: seq<Observation>, o: Observation)
    ensures ProcessAll(s, terms, obs + [o]) == Process(ProcessAll(s, terms, obs), o.message, terms, o.alias)
  {
    assert (obs + [o])[..|obs|] == obs;
  }

  /** Processing two batches one after the other is processing their
      concatenation. */
  lemma {:induction false} ProcessAllConcat(s: Stats, terms: Terms, a: seq<Observation>, b: seq<Observation>)
    ensures ProcessAll(s, terms, a + b) == ProcessAll(ProcessAll(s, terms, a), terms, b)
    decreases |b|
  {
    if b == [] {
      assert a + b == a;
    } else {
      var init, last := b[..|b| - 1], b[|b| - 1];
      assert a + b == (a + init) + [last];
      assert b == init + [last];
      ProcessAllConcat(s, terms, a, init);
      ProcessAllAppend(s, terms, a + init, last);
      ProcessAllAppend(ProcessAll(s, terms, a), terms, init, last);
    }
  }

  /** What `collect_message` appends: the text, when the attribute exists. */
  function Collected(m: Message): seq<string> {
    match m.text
    case Some(t) => [t]
    case None => []
  }

  /** `collect_message` applied to each observation in turn. */
  function Texts(obs: seq<Observation>): seq<string>
    decreases |obs|
  {
    if obs == [] then [] else Texts(obs[..|obs| - 1]) + Collected(obs[|obs| - 1].message)
  }

  lemma TextsAppend(obs: seq<Observation>, o: Observation)
    ensures Texts(obs + [o]) == Texts(obs) + Collected(o.message)
  {
    assert (obs + [o])[..|obs|] == obs;
  }

  lemma {:induction false} TextsConcat(a: seq<Observation>, b: seq<Observation>)
    ensures Texts(a + b) == Texts(a) + Texts(b)
    decreases |b|
  {
    if b == [] {
      assert a + b == a;
    } else {
      var init, last := b[..|b| - 1], b[|b| - 1];
      var ab := a + b;
      assert ab[..|ab| - 1] == a + init;
      assert Texts(ab) == Texts(a + init) + Collected(last.message);
      TextsConcat(a, init);
      assert Texts(b) == Texts(init) + Collected(last.message);
    }
  }

  /** A log that held `Texts(a)` after `log` and then collects `b`. */
  lemma LogExtends(log: seq<string>, a: seq<Observation>, b: seq<Observation>)
    ensures log + Texts(a) + Texts(b) == log + Texts(a + b)
  {
    TextsConcat(a, b);
  }

  /** A log that held `Texts(a)` after `log` and then collects `o`. */
  lemma LogAppends(log: seq<string>, a: seq<Observation>, o: Observation)
    ensures log + Texts(a) + Collected(o.message) == log + Texts(a + [o])
  {
    TextsAppend(a, o);
  }

  /** The log holds one text per observation that carries one, in order. */
  lemma {:induction false} TextsAreTheMessageTexts(obs: seq<Observation>)
    ensures |Texts(obs)| <= |obs|
    ensures (forall i :: 0 <= i < |obs| ==> obs[i].message.text.Some?) ==>
              |Texts(obs)| == |obs| &&
              forall i :: 0 <= i < |obs| ==> Texts(obs)[i] == obs[i].message.text.value
    decreases |obs|
  {
    if obs != [] {
      var init := obs[..|obs| - 1];
      TextsAreTheMessageTexts(init);
      if forall i :: 0 <= i < |obs| ==> obs[i].message.text.Some? {
        assert forall i :: 0 <= i < |init| ==> init[i] == obs[i];
      }
    }
  }

  /** Sum of a per-message quantity over the observations. */
  function Sum(obs: seq<Observation>, f: Message -> nat): nat
    decreases |obs|
  {
    if obs == [] then 0 else Sum(obs[..|obs| - 1], f) + f(obs[|obs| - 1].message)
  }

  /** Channel ids carried by the observed messages. */
  function ChannelsIn(obs: seq<Observation>): set<int>
    decreases |obs|
  {
    if obs == [] then {} else ChannelsIn(obs[..|obs| - 1]) + ChannelOf(obs[|obs| - 1].message)
  }

  /** Number of observed messages dated `d`. */
  function DayCount(obs: seq<Observation>, d: string): nat
    decreases |obs|
  {
    if obs == [] then 0
    else DayCount(obs[..|obs| - 1], d) + (if obs[|obs| - 1].message.day == d then 1 else 0)
  }

  /** Number of observations found by one of university `u`'s aliases. */
  ghost function MentionCount(obs: seq<Observation>, terms: Terms, u: string): nat
    decreases |obs|
  {
    if obs == [] then 0
    else MentionCount(obs[..|obs| - 1], terms, u) + (if Mentioned(terms, u, obs[|obs| - 1].alias) then 1 else 0)
  }

  /** After N observations: N more posts, the sums of the per-message values,
      and each day's count grown by the number of messages of that day. */
  lemma {:induction false} ProcessAllTotals(s: Stats, terms: Terms, obs: seq<Observation>)
    ensures ProcessAll(s, terms, obs).totalPosts == s.totalPosts + |obs|
    ensures ProcessAll(s, terms, obs).uniqueChannels == s.uniqueChannels + ChannelsIn(obs)
    ensures ProcessAll(s, terms, obs).views == s.views + Sum(obs, ViewsOf)
    ensures ProcessAll(s, terms, obs).forwards == s.forwards + Sum(obs, ForwardsOf)
    ensures ProcessAll(s, terms, obs).replies == s.replies + Sum(obs, RepliesOf)
    ensures forall d :: ProcessAll(s, terms, obs).postsByDay.Get(d) == s.postsByDay.Get(d) + DayCount(obs, d)
    decreases |obs|
  {
    if obs != [] {
      ProcessAllTotals(s, terms, obs[..|obs| - 1]);
    }
  }

  /** Across a run, both histograms only ever append to their insertion
      order: what was listed before stays listed, in place. */
  lemma {:induction false} ProcessAllKeepsOrder(s: Stats, terms: Terms, obs: seq<Observation>)
    ensures s.mentions.order <= ProcessAll(s, terms, obs).mentions.order
    ensures s.postsByDay.order <= ProcessAll(s, terms, obs).postsByDay.order
    decreases |obs|
  {
    if obs != [] {
      var init := obs[..|obs| - 1];
      ProcessAllKeepsOrder(s, terms, init);
      var mid := ProcessAll(s, terms, init);
      var o := obs[|obs| - 1];
      assert mid.mentions.order <= Process(mid, o.message, terms, o.alias).mentions.order;
      assert mid.postsByDay.order <= Process(mid, o.message, terms, o.alias).postsByDay.order;
    }
  }

  /** After the observations, each university's count has grown by the
      number of observations found by one of its aliases. */
  lemma {:induction false} ProcessAllMentions(s: Stats, terms: Terms, obs: seq<Observation>, u: string)
    requires IsDict(terms)
    ensures ProcessAll(s, terms, obs).mentions.Get(u) == s.mentions.Get(u) + MentionCount(obs, terms, u)
    decreases |obs|
  {
    if obs != [] {
      var init := obs[..|obs| - 1];
      var o := obs[|obs| - 1];
      ProcessAllMentions(s, terms, init, u);
      MentionsAfterCounts(ProcessAll(s, terms, init).mentions, terms, o.alias, u);
    }
  }

  /** The channel set holds exactly the channel ids some observed message
      carries (besides those it held before). */
  lemma {:induction false} ChannelsInIff(obs: seq<Observation>, c: int)
    ensures c in ChannelsIn(obs) <==>
              exists i :: 0 <= i < |obs| && obs[i].message.peer == Some(PeerChannel(c))
    decreases |obs|
  {
    if obs != [] {
      var init := obs[..|obs| - 1];
      ChannelsInIff(init, c);
      if exists i :: 0 <= i < |init| && init[i].message.peer == Some(PeerChannel(c)) {
        var i :| 0 <= i < |init| && init[i].message.peer == Some(PeerChannel(c));
        assert obs[i] == init[i];
      }
      if exists i :: 0 <= i < |obs| && obs[i].message.peer == Some(PeerChannel(c)) {
        var i :| 0 <= i < |obs| && obs[i].message.peer == Some(PeerChannel(c));
        if i < |init| { assert init[i] == obs[i]; }
      }
    }
  }

  /** The same message observed N times contributes N times its value. */
  lemma {:induction false} SumOfRepeated(obs: seq<Observation>, f: Message -> nat, m: Message)
    requires forall i :: 0 <= i < |obs| ==> obs[i].message == m
    ensures Sum(obs, f) == |obs| * f(m)
    decreases |obs|
  {
    if obs != [] {
      SumOfRepeated(obs[..|obs| - 1], f, m);
    }
  }
}
