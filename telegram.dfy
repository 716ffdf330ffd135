/** The shapes the analyzer reads from the Telegram client, and the search
    configuration (university key to lower-case aliases). */
module Telegram {

  datatype Option<+T> = None | Some(value: T)

  /** `message.peer_id`: only a channel peer has a `channel_id` attribute. */
  datatype Peer = PeerChannel(channelId: int) | OtherPeer

  /** `message.replies`: missing or `None` (falsy), a bare `int` placeholder
      (skipped whatever its value), or a `MessageReplies` structure whose
      `replies` field is the reply count. */
  datatype Replies = NoReplies | IntPlaceholder(n: int) | Structured(replies: nat)

  /** One message yielded by a search. An optional field is `None` both when
      the attribute is missing and when it holds `None`: the analyzer treats
      the two alike. `day` is the `%Y-%m-%d` rendering of `message.date`. */
  datatype Message = Message(
    text: Option<string>,
    peer: Option<Peer>,
    views: Option<nat>,
    forwards: Option<nat>,
    replies: Replies,
    day: string)

  /** `dialog.entity`: a `Channel` or any other kind of peer. */
  datatype Entity = ChannelEntity(id: int) | OtherEntity

  datatype Dialog = Dialog(name: string, entity: Entity)

  /** What resolving a channel and requesting its full information gives:
      the participant count (possibly `None`), or an exception. */
  datatype FullChannel = Participants(count: Option<int>) | RequestFailed(error: string)

  /** One dialog from the dialog list, with the client's answer for it. The
      answer is consulted only when the dialog's entity is a channel. */
  datatype Candidate = Candidate(dialog: Dialog, fullInfo: FullChannel)

  /** The bounded message search: (entity, search term, limit) to the
      messages the stream yields, in order. */
  type Search = (Entity, string, nat) -> seq<Message>

  datatype University = University(name: string, aliases: seq<string>)

  /** The search configuration as an ordered dictionary. */
  type Terms = seq<University>

  /** Dictionary keys are distinct. */
  ghost predicate IsDict(terms: Terms) {
    forall i, j :: 0 <= i < j < |terms| ==> terms[i].name != terms[j].name
  }

  /** Total number of aliases, that is, searches per eligible channel. */
  function AliasCount(terms: Terms): nat {
    if terms == [] then 0 else AliasCount(terms[..|terms| - 1]) + |terms[|terms| - 1].aliases|
  }

  /** The crawler's configuration, with the aliases already lower-cased. */
  const SEARCH_TERMS: Terms := [
    University("спбгу", ["spbgu", "спбгу", "спб гу", "spbu", "санкт-петербургский государственный университет"]),
    University("мгу", ["msu", "мгу", "московский государственный университет"])
  ]
}
