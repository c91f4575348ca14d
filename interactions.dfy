/** How the agent dashboard turns history rows into conversations
    (`formatInteractionData` and `processAndSetGroupedInteractions`). */
module Interactions {
  import opened Sessions
  import opened Messages
  import opened Grouping

  /** `formatInteractionData`: copies id, session and time, defaults the kind to
      "unknown" and the content to "Mensaje vacío", and makes the agent flag a
      boolean. */
  function Format(row: HistoryRow): (m: Message)
    ensures m.id == row.id && m.sessionId == row.sessionId && m.time == row.time
    ensures m.isAgentMessage.Present?
  {
    Message(row.id, row.sessionId, KindOf(row), ContentOf(row), row.time,
            Present(row.sentByAgent == Some(true)))
  }

  /** The defaults of `formatInteractionData`. */
  lemma FormatDefaults(row: HistoryRow)
    ensures row.message == None ==> Format(row).kind == "unknown" && Format(row).content == "Mensaje vacío"
    ensures row.message.Some? && row.message.value.kind.Some? && row.message.value.kind.value != ""
            ==> Format(row).kind == row.message.value.kind.value
    ensures row.message.Some? && row.message.value.content.Some? && row.message.value.content.value != ""
            ==> Format(row).content == row.message.value.content.value
    ensures Format(row).isAgentMessage == Present(false) <==> row.sentByAgent != Some(true)
  {
  }

  /** The normalisation step: a record with an `isAgentMessage` key is kept as
      it is, anything else goes through `Format`. */
  function Normalize(item: Item): (m: Message)
    ensures m.isAgentMessage.Present?
    ensures item.Formatted? && item.msg.isAgentMessage.Present? ==> m == item.msg
    ensures item.Raw? ==> m == Format(item.row)
  {
    match item
    case Raw(row) => Format(row)
    case Formatted(msg) => if msg.isAgentMessage.Present? then msg else Format(AsRow(msg))
  }

  /** Normalising twice is normalising once. */
  lemma NormalizeIdempotent(item: Item)
    ensures Normalize(Formatted(Normalize(item))) == Normalize(item)
  {
  }

  function Normalized(items: seq<Item>): (ms: seq<Message>)
    ensures |ms| == |items|
    ensures forall i :: 0 <= i < |items| ==> ms[i] == Normalize(items[i])
  {
    seq(|items|, i requires 0 <= i < |items| => Normalize(items[i]))
  }

  /** `processAndSetGroupedInteractions`: an empty input gives no sessions;
      otherwise the normalised messages are grouped as `GroupingOf` says. */
  method Process(items: seq<Item>) returns (r: seq<SessionGroup>)
    ensures |items| == 0 ==> r == []
    ensures GroupingOf(Normalized(items), r)
    ensures multiset(Flatten(r)) == multiset(Normalized(items))
  {
    if |items| == 0 {
      r := [];
      assert GroupingOf(Normalized(items), r);
      return;
    }
    r := GroupAndRank(Normalized(items));
    FlattenGrouping(Normalized(items), r);
  }

  /** Records that went through `Format` come out of `Normalize` unchanged. */
  lemma NormalizedFormatted(ms: seq<Message>)
    requires forall m :: m in ms ==> m.isAgentMessage.Present?
    ensures Normalized(AsItems(ms)) == ms
  {
  }

  /** Whatever went through `Normalize` has an agent flag. */
  lemma NormalizedAreFormatted(items: seq<Item>)
    ensures forall m :: m in multiset(Normalized(items)) ==> m.isAgentMessage.Present?
  {
  }
}
