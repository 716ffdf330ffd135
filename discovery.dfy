/** The first half of `search_messages`: walking the dialog list and keeping
    the channels with more than 100 participants. */
module Discovery {
  import opened Telegram

  /** Participant counts must exceed this, strictly. */
  const MIN_PARTICIPANTS := 100

  /** The dialog is kept: it is a channel, its full information was fetched,
      and the participant count is present and above the threshold. */
  predicate Eligible(c: Candidate) {
    && c.dialog.entity.ChannelEntity?
    && c.fullInfo.Participants?
    && c.fullInfo.count.Some?
    && c.fullInfo.count.value > MIN_PARTICIPANTS
  }

  /** The lookup of a channel raised: the error is logged and the dialog
      skipped. Non-channels are never looked up, so they never fail. */
  predicate Failed(c: Candidate) {
    c.dialog.entity.ChannelEntity? && c.fullInfo.RequestFailed?
  }

  /** The `dialogs` list, in dialog order. */
  function EligibleDialogs(cs: seq<Candidate>): seq<Dialog>
    decreases |cs|
  {
    if cs == [] then []
    else
      var c := cs[|cs| - 1];
      EligibleDialogs(cs[..|cs| - 1]) + (if Eligible(c) then [c.dialog] else [])
  }

  /** Names of the dialogs whose error was logged, in dialog order. */
  function FailedNames(cs: seq<Candidate>): seq<string>
    decreases |cs|
  {
    if cs == [] then []
    else
      var c := cs[|cs| - 1];
      FailedNames(cs[..|cs| - 1]) + (if Failed(c) then [c.dialog.name] else [])
  }

  /** The discovery loop; `skipped` stands for the error lines it prints. */
  method DiscoverChannels(candidates: seq<Candidate>) returns (dialogs: seq<Dialog>, skipped: seq<string>)
    ensures dialogs == EligibleDialogs(candidates)
    ensures skipped == FailedNames(candidates)
  {
    dialogs, skipped := [], [];
    for i := 0 to |candidates|
      invariant dialogs == EligibleDialogs(candidates[..i])
      invariant skipped == FailedNames(candidates[..i])
    {
      var c := candidates[i];
      assert candidates[..i + 1][..i] == candidates[..i];
      if c.dialog.entity.ChannelEntity? {
        match c.fullInfo {
          case Participants(count) =>
            if count.Some? && count.value > MIN_PARTICIPANTS {
              dialogs := dialogs + [c.dialog];
            }
          case RequestFailed(_) =>
            skipped := skipped + [c.dialog.name];
        }
      }
    }
    assert candidates[..|candidates|] == candidates;
  }

  /** A dialog is kept iff some candidate for it is eligible. */
  lemma {:induction false} EligibleDialogsIff(cs: seq<Candidate>, d: Dialog)
    ensures d in EligibleDialogs(cs) <==> exists i :: 0 <= i < |cs| && cs[i].dialog == d && Eligible(cs[i])
    decreases |cs|
  {
    if cs != [] {
      var init := cs[..|cs| - 1];
      EligibleDialogsIff(init, d);
      if exists i :: 0 <= i < |init| && init[i].dialog == d && Eligible(init[i]) {
        var i :| 0 <= i < |init| && init[i].dialog == d && Eligible(init[i]);
        assert cs[i] == init[i];
      }
      if exists i :: 0 <= i < |cs| && cs[i].dialog == d && Eligible(cs[i]) {
        var i :| 0 <= i < |cs| && cs[i].dialog == d && Eligible(cs[i]);
        if i < |init| { assert init[i] == cs[i]; }
      }
    }
  }

  /** Discovery is a filter: it works candidate by candidate and keeps order. */
  lemma {:induction false} EligibleDialogsAppend(a: seq<Candidate>, b: seq<Candidate>)
    ensures EligibleDialogs(a + b) == EligibleDialogs(a) + EligibleDialogs(b)
    ensures FailedNames(a + b) == FailedNames(a) + FailedNames(b)
    decreases |b|
  {
    if b == [] {
      assert a + b == a;
    } else {
      var init := b[..|b| - 1];
      EligibleDialogsAppend(a, init);
      assert (a + b)[..|a + b| - 1] == a + init;
    }
  }

  /** A candidate whose lookup raises is logged and skipped, and the
      candidates after it are still examined. */
  lemma FailureIsSkipped(a: seq<Candidate>, f: Candidate, b: seq<Candidate>)
    requires Failed(f)
    ensures EligibleDialogs(a + [f] + b) == EligibleDialogs(a) + EligibleDialogs(b)
    ensures FailedNames(a + [f] + b) == FailedNames(a) + [f.dialog.name] + FailedNames(b)
  {
    var af := a + [f];
    EligibleDialogsAppend(af, b);
    assert af[..|af| - 1] == a;
    assert EligibleDialogs(af) == EligibleDialogs(a);
    assert FailedNames(af) == FailedNames(a) + [f.dialog.name];
  }

  /** The threshold is strict: 100 participants are not enough, 101 are. */
  lemma ThresholdIsStrict(d: Dialog, n: int)
    requires d.entity.ChannelEntity?
    ensures Eligible(Candidate(d, Participants(Some(n)))) <==> n > 100
    ensures !Eligible(Candidate(d, Participants(Some(100))))
    ensures Eligible(Candidate(d, Participants(Some(101))))
    ensures !Eligible(Candidate(d, Participants(None)))
  {
  }
}
