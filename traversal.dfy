/** The second half of `search_messages`: for each university, for each of its
    aliases, for each kept dialog, every message the search stream yields is
    handed to the aggregator together with the alias. This module spells that
    traversal out as the sequence of (message, alias) observations it
    produces, and proves how many there are and where they come from. */
module Traversal {
  import opened Telegram
  import opened Aggregation
  import opened Discovery

  /** One stream's messages, each paired with the alias that found it. */
  function Tagged(msgs: seq<Message>, alias: string): (r: seq<Observation>)
    ensures |r| == |msgs|
    ensures forall i :: 0 <= i < |msgs| ==> r[i] == Observation(msgs[i], alias)
    decreases |msgs|
  {
    if msgs == [] then []
    else Tagged(msgs[..|msgs| - 1], alias) + [Observation(msgs[|msgs| - 1], alias)]
  }

  /** The stream read up to one more message. */
  lemma TaggedStep(msgs: seq<Message>, alias: string, l: nat)
    requires l < |msgs|
    ensures Tagged(msgs[..l + 1], alias) == Tagged(msgs[..l], alias) + [Observation(msgs[l], alias)]
  {
    assert msgs[..l + 1][..l] == msgs[..l];
  }

  /** One more dialog, alias or university read by the loops adds its
      observations at the end. */
  lemma ChannelsObsStep(dialogs: seq<Dialog>, alias: string, search: Search, limit: nat, k: nat)
    requires k < |dialogs|
    ensures ChannelsObs(dialogs[..k + 1], alias, search, limit)
            == ChannelsObs(dialogs[..k], alias, search, limit) + Tagged(search(dialogs[k].entity, alias, limit), alias)
  {
    assert dialogs[..k + 1][..k] == dialogs[..k];
  }

  lemma AliasesObsStep(aliases: seq<string>, dialogs: seq<Dialog>, search: Search, limit: nat, j: nat)
    requires j < |aliases|
    ensures AliasesObs(aliases[..j + 1], dialogs, search, limit)
            == AliasesObs(aliases[..j], dialogs, search, limit) + ChannelsObs(dialogs, aliases[j], search, limit)
  {
    assert aliases[..j + 1][..j] == aliases[..j];
  }

  lemma ObservationsStep(terms: Terms, dialogs: seq<Dialog>, search: Search, limit: nat, i: nat)
    requires i < |terms|
    ensures Observations(terms[..i + 1], dialogs, search, limit)
            == Observations(terms[..i], dialogs, search, limit) + AliasesObs(terms[i].aliases, dialogs, search, limit)
  {
    assert terms[..i + 1][..i] == terms[..i];
  }

  /** The innermost loops: `for dialog in dialogs`, then the stream. */
  function ChannelsObs(dialogs: seq<Dialog>, alias: string, search: Search, limit: nat): seq<Observation>
    decreases |dialogs|
  {
    if dialogs == [] then []
    else
      ChannelsObs(dialogs[..|dialogs| - 1], alias, search, limit)
      + Tagged(search(dialogs[|dialogs| - 1].entity, alias, limit), alias)
  }

  /** `for term in search_terms[university]` */
  function AliasesObs(aliases: seq<string>, dialogs: seq<Dialog>, search: Search, limit: nat): seq<Observation>
    decreases |aliases|
  {
    if aliases == [] then []
    else
      AliasesObs(aliases[..|aliases| - 1], dialogs, search, limit)
      + ChannelsObs(dialogs, aliases[|aliases| - 1], search, limit)
  }

  /** `for university in search_terms`: everything the traversal feeds to
      the aggregator, in order. */
  function Observations(terms: Terms, dialogs: seq<Dialog>, search: Search, limit: nat): seq<Observation>
    decreases |terms|
  {
    if terms == [] then []
    else
      Observations(terms[..|terms| - 1], dialogs, search, limit)
      + AliasesObs(terms[|terms| - 1].aliases, dialogs, search, limit)
  }

  /** The number of messages the streams of `dialogs` yield for `alias`. */
  function ChannelsTotal(dialogs: seq<Dialog>, alias: string, search: Search, limit: nat): nat
    decreases |dialogs|
  {
    if dialogs == [] then 0
    else ChannelsTotal(dialogs[..|dialogs| - 1], alias, search, limit) + |search(dialogs[|dialogs| - 1].entity, alias, limit)|
  }

  /** The same, summed over `aliases`. */
  function AliasesTotal(aliases: seq<string>, dialogs: seq<Dialog>, search: Search, limit: nat): nat
    decreases |aliases|
  {
    if aliases == [] then 0
    else AliasesTotal(aliases[..|aliases| - 1], dialogs, search, limit) + ChannelsTotal(dialogs, aliases[|aliases| - 1], search, limit)
  }

  /** The length of every (university, alias, kept dialog) stream, summed. */
  function StreamTotal(terms: Terms, dialogs: seq<Dialog>, search: Search, limit: nat): nat
    decreases |terms|
  {
    if terms == [] then 0
    else StreamTotal(terms[..|terms| - 1], dialogs, search, limit) + AliasesTotal(terms[|terms| - 1].aliases, dialogs, search, limit)
  }

  lemma {:induction false} ChannelsObsLength(dialogs: seq<Dialog>, alias: string, search: Search, limit: nat)
    ensures |ChannelsObs(dialogs, alias, search, limit)| == ChannelsTotal(dialogs, alias, search, limit)
    decreases |dialogs|
  {
    if dialogs != [] {
      ChannelsObsLength(dialogs[..|dialogs| - 1], alias, search, limit);
    }
  }

  lemma {:induction false} AliasesObsLength(aliases: seq<string>, dialogs: seq<Dialog>, search: Search, limit: nat)
    ensures |AliasesObs(aliases, dialogs, search, limit)| == AliasesTotal(aliases, dialogs, search, limit)
    decreases |aliases|
  {
    if aliases != [] {
      AliasesObsLength(aliases[..|aliases| - 1], dialogs, search, limit);
      ChannelsObsLength(dialogs, aliases[|aliases| - 1], search, limit);
    }
  }

  /** Every message of every (university, alias, kept dialog) stream is
      observed, and nothing is deduplicated: the traversal observes exactly
      as many messages as the streams yield in total. */
  lemma {:induction false} ObservationsLength(terms: Terms, dialogs: seq<Dialog>, search: Search, limit: nat)
    ensures |Observations(terms, dialogs, search, limit)| == StreamTotal(terms, dialogs, search, limit)
    decreases |terms|
  {
    if terms != [] {
      ObservationsLength(terms[..|terms| - 1], dialogs, search, limit);
      AliasesObsLength(terms[|terms| - 1].aliases, dialogs, search, limit);
    }
  }

  /** A crawl adds to `total_posts` exactly the summed length of the streams
      it reads. */
  lemma PostsAfterSearch(s: Stats, terms: Terms, dialogs: seq<Dialog>, search: Search, limit: nat)
    ensures ProcessAll(s, terms, Observations(terms, dialogs, search, limit)).totalPosts
            == s.totalPosts + StreamTotal(terms, dialogs, search, limit)
  {
    ObservationsLength(terms, dialogs, search, limit);
    ProcessAllTotals(s, terms, Observations(terms, dialogs, search, limit));
  }

  lemma {:induction false} ChannelsObsComplete(dialogs: seq<Dialog>, alias: string, search: Search, limit: nat, d: Dialog, i: nat)
    requires d in dialogs && i < |search(d.entity, alias, limit)|
    ensures Observation(search(d.entity, alias, limit)[i], alias) in ChannelsObs(dialogs, alias, search, limit)
    decreases |dialogs|
  {
    var n := |dialogs|;
    var init := dialogs[..n - 1];
    var o := Observation(search(d.entity, alias, limit)[i], alias);
    if d in init {
      ChannelsObsComplete(init, alias, search, limit, d, i);
    } else {
      assert d == dialogs[n - 1] by {
        assert dialogs == init + [dialogs[n - 1]];
      }
      var t := Tagged(search(d.entity, alias, limit), alias);
      assert t[i] == o;
    }
  }

  lemma {:induction false} AliasesObsComplete(aliases: seq<string>, dialogs: seq<Dialog>, search: Search, limit: nat, a: string, d: Dialog, i: nat)
    requires a in aliases && d in dialogs && i < |search(d.entity, a, limit)|
    ensures Observation(search(d.entity, a, limit)[i], a) in AliasesObs(aliases, dialogs, search, limit)
    decreases |aliases|
  {
    var n := |aliases|;
    var init := aliases[..n - 1];
    var o := Observation(search(d.entity, a, limit)[i], a);
    var before := AliasesObs(init, dialogs, search, limit);
    var last := ChannelsObs(dialogs, aliases[n - 1], search, limit);
    assert AliasesObs(aliases, dialogs, search, limit) == before + last;
    if a in init {
      AliasesObsComplete(init, dialogs, search, limit, a, d, i);
      assert o in before;
    } else {
      assert a == aliases[n - 1] by {
        assert aliases == init + [aliases[n - 1]];
      }
      ChannelsObsComplete(dialogs, a, search, limit, d, i);
      assert o in last;
    }
  }

  /** The converse of `ObservationOrigin`: every message yielded by the
      search for any alias of any university in any kept dialog is handed to
      the aggregator, tagged with that alias. */
  lemma {:induction false} ObservationsComplete(terms: Terms, dialogs: seq<Dialog>, search: Search, limit: nat,
                                                u: University, a: string, d: Dialog, i: nat)
    requires u in terms && a in u.aliases && d in dialogs && i < |search(d.entity, a, limit)|
    ensures Observation(search(d.entity, a, limit)[i], a) in Observations(terms, dialogs, search, limit)
    decreases |terms|
  {
    var n := |terms|;
    var init := terms[..n - 1];
    if u in init {
      ObservationsComplete(init, dialogs, search, limit, u, a, d, i);
    } else {
      assert u == terms[n - 1] by {
        assert terms == init + [terms[n - 1]];
      }
      AliasesObsComplete(u.aliases, dialogs, search, limit, a, d, i);
    }
  }

  /** Every stream of `dialogs` yields between `lo` and `hi` messages for
      `alias`. */
  ghost predicate StreamsBetween(dialogs: seq<Dialog>, alias: string, search: Search, limit: nat, lo: nat, hi: nat) {
    forall d :: d in dialogs ==> lo <= |search(d.entity, alias, limit)| <= hi
  }

  /** Adding a count in [lo*p, hi*p] to one in [lo*q, hi*q]. */
  lemma SumOfRanges(lo: nat, hi: nat, p: nat, q: nat, x: nat, y: nat)
    requires lo * p <= x <= hi * p && lo * q <= y <= hi * q
    ensures lo * (p + q) <= x + y <= hi * (p + q)
  {
    assert lo * (p + q) == lo * p + lo * q;
    assert hi * (p + q) == hi * p + hi * q;
  }

  lemma {:induction false} ChannelsObsCount(dialogs: seq<Dialog>, alias: string, search: Search, limit: nat, lo: nat, hi: nat)
    requires StreamsBetween(dialogs, alias, search, limit, lo, hi)
    ensures lo * |dialogs| <= |ChannelsObs(dialogs, alias, search, limit)| <= hi * |dialogs|
    decreases |dialogs|
  {
    if dialogs != [] {
      var init := dialogs[..|dialogs| - 1];
      var n := |dialogs|;
      assert StreamsBetween(init, alias, search, limit, lo, hi) by {
        forall d | d in init ensures d in dialogs { }
      }
      ChannelsObsCount(init, alias, search, limit, lo, hi);
      assert dialogs[n - 1] in dialogs;
      SumOfRanges(lo, hi, n - 1, 1, |ChannelsObs(init, alias, search, limit)|, |search(dialogs[n - 1].entity, alias, limit)|);
    }
  }

  lemma {:induction false} AliasesObsCount(aliases: seq<string>, dialogs: seq<Dialog>, search: Search, limit: nat, lo: nat, hi: nat)
    requires forall a :: a in aliases ==> StreamsBetween(dialogs, a, search, limit, lo, hi)
    ensures lo * |dialogs| * |aliases| <= |AliasesObs(aliases, dialogs, search, limit)| <= hi * |dialogs| * |aliases|
    decreases |aliases|
  {
    if aliases != [] {
      var n := |aliases|;
      var init := aliases[..n - 1];
      assert forall a :: a in init ==> a in aliases;
      AliasesObsCount(init, dialogs, search, limit, lo, hi);
      assert aliases[n - 1] in aliases;
      ChannelsObsCount(dialogs, aliases[n - 1], search, limit, lo, hi);
      var low, high := lo * |dialogs|, hi * |dialogs|;
      var x, y := |AliasesObs(init, dialogs, search, limit)|, |ChannelsObs(dialogs, aliases[n - 1], search, limit)|;
      assert x + y == |AliasesObs(aliases, dialogs, search, limit)|;
      assert low * (n - 1) <= x <= high * (n - 1);
      assert low * 1 <= y <= high * 1;
      SumOfRanges(low, high, n - 1, 1, x, y);
      assert (n - 1) + 1 == n;
    }
  }

  /** Counting without deduplication: if every (alias, dialog) stream yields
      between `lo` and `hi` messages, the traversal makes between
      `lo * |dialogs| * aliases` and `hi * |dialogs| * aliases` observations. */
  lemma {:induction false} ObservationsCount(terms: Terms, dialogs: seq<Dialog>, search: Search, limit: nat, lo: nat, hi: nat)
    requires forall u, a :: u in terms && a in u.aliases ==> StreamsBetween(dialogs, a, search, limit, lo, hi)
    ensures lo * |dialogs| * AliasCount(terms) <= |Observations(terms, dialogs, search, limit)| <= hi * |dialogs| * AliasCount(terms)
    decreases |terms|
  {
    if terms != [] {
      var n := |terms|;
      var init := terms[..n - 1];
      var last := terms[n - 1];
      assert forall u :: u in init ==> u in terms;
      ObservationsCount(init, dialogs, search, limit, lo, hi);
      assert last in terms;
      AliasesObsCount(last.aliases, dialogs, search, limit, lo, hi);
      var low, high := lo * |dialogs|, hi * |dialogs|;
      var x, y := |Observations(init, dialogs, search, limit)|, |AliasesObs(last.aliases, dialogs, search, limit)|;
      assert x + y == |Observations(terms, dialogs, search, limit)|;
      SumOfRanges(low, high, AliasCount(init), |last.aliases|, x, y);
    }
  }

  /** With no eligible dialog the traversal observes nothing. */
  lemma {:induction false} NoDialogsNoObservations(terms: Terms, search: Search, limit: nat)
    ensures Observations(terms, [], search, limit) == []
    decreases |terms|
  {
    if terms != [] {
      NoDialogsNoObservations(terms[..|terms| - 1], search, limit);
      var aliases := terms[|terms| - 1].aliases;
      AliasesObsEmpty(aliases, search, limit);
    }
  }

  lemma {:induction false} AliasesObsEmpty(aliases: seq<string>, search: Search, limit: nat)
    ensures AliasesObs(aliases, [], search, limit) == []
    decreases |aliases|
  {
    if aliases != [] {
      AliasesObsEmpty(aliases[..|aliases| - 1], search, limit);
    }
  }

  lemma {:induction false} ChannelsObsOrigin(dialogs: seq<Dialog>, alias: string, search: Search, limit: nat, o: Observation)
    requires o in ChannelsObs(dialogs, alias, search, limit)
    ensures o.alias == alias
    ensures exists d :: d in dialogs && o.message in search(d.entity, alias, limit)
    decreases |dialogs|
  {
    var n := |dialogs|;
    var init := dialogs[..n - 1];
    var stream := search(dialogs[n - 1].entity, alias, limit);
    if o in ChannelsObs(init, alias, search, limit) {
      ChannelsObsOrigin(init, alias, search, limit, o);
      var d :| d in init && o.message in search(d.entity, alias, limit);
      assert d in dialogs;
    } else {
      var t := Tagged(stream, alias);
      assert o in t;
      var i :| 0 <= i < |t| && t[i] == o;
      assert o.message == stream[i];
      assert dialogs[n - 1] in dialogs;
    }
  }

  lemma {:induction false} AliasesObsOrigin(aliases: seq<string>, dialogs: seq<Dialog>, search: Search, limit: nat, o: Observation)
    requires o in AliasesObs(aliases, dialogs, search, limit)
    ensures o.alias in aliases
    ensures exists d :: d in dialogs && o.message in search(d.entity, o.alias, limit)
    decreases |aliases|
  {
    var n := |aliases|;
    var init := aliases[..n - 1];
    if o in AliasesObs(init, dialogs, search, limit) {
      AliasesObsOrigin(init, dialogs, search, limit, o);
    } else {
      ChannelsObsOrigin(dialogs, aliases[n - 1], search, limit, o);
    }
  }

  /** Every observation is a message yielded by the search for its alias in
      one of the kept dialogs, and that alias belongs to some university. */
  lemma {:induction false} ObservationOrigin(terms: Terms, dialogs: seq<Dialog>, search: Search, limit: nat, o: Observation)
    requires o in Observations(terms, dialogs, search, limit)
    ensures exists u :: u in terms && o.alias in u.aliases
    ensures exists d :: d in dialogs && o.message in search(d.entity, o.alias, limit)
    decreases |terms|
  {
    var n := |terms|;
    var init := terms[..n - 1];
    if o in Observations(init, dialogs, search, limit) {
      ObservationOrigin(init, dialogs, search, limit, o);
      var u :| u in init && o.alias in u.aliases;
      assert u in terms;
    } else {
      AliasesObsOrigin(terms[n - 1].aliases, dialogs, search, limit, o);
      assert terms[n - 1] in terms;
    }
  }
}
