/** The earlier grouper of the chatbot-interactions page: the same pipeline as
    the dashboard's, with a formatter that sets no agent flag, a different test
    for "already formatted", and a realtime insert that does not deduplicate. */
module LegacyInteractions {
  import opened Sessions
  import opened Messages
  import opened Grouping

  /** `formatInteractionData` of the earlier page: no `isAgentMessage` key. */
  function Format(row: HistoryRow): (m: Message)
    ensures m.id == row.id && m.sessionId == row.sessionId && m.time == row.time
    ensures m.isAgentMessage == Absent
  {
    Message(row.id, row.sessionId, KindOf(row), ContentOf(row), row.time, Absent)
  }

  /** The defaults for a missing or empty type and content. */
  lemma FormatDefaults(row: HistoryRow)
    ensures row.message == None ==> Format(row).kind == "unknown" && Format(row).content == "Mensaje vacío"
    ensures row.message.Some? && row.message.value.kind.Some? && row.message.value.kind.value != ""
            ==> Format(row).kind == row.message.value.kind.value
    ensures row.message.Some? && row.message.value.content.Some? && row.message.value.content.value != ""
            ==> Format(row).content == row.message.value.content.value
  {
  }

  /** `item.time && item.sessionId`. Raw rows carry `session_id`, never
      `sessionId`, so only a built record can pass; its time is always truthy
      here, so the test comes down to a non-empty session id. */
  predicate LooksFormatted(item: Item)
  {
    item.Formatted? && item.msg.sessionId != ""
  }

  function Normalize(item: Item): (m: Message)
    ensures m.id == (if item.Raw? then item.row.id else item.msg.id)
    ensures LooksFormatted(item) ==> m == item.msg
    ensures item.Raw? ==> m == Format(item.row)
  {
    if LooksFormatted(item) then item.msg
    else match item
      case Raw(row) => Format(row)
      case Formatted(msg) => Format(AsRow(msg))
  }

  /** A built record whose session id is empty fails the test and is formatted
      again from itself: with no `message` key its type and content fall back
      to the defaults. */
  lemma ReformatLosesContent(m: Message)
    requires m.sessionId == ""
    ensures Normalize(Formatted(m)) == Message(m.id, "", UnknownKind, EmptyContent, m.time, Absent)
  {
  }

  /** Normalising a second time changes the record exactly when its session id
      is empty and it does not already carry the defaults. */
  lemma NormalizeTwice(item: Item)
    ensures var n := Normalize(item);
            Normalize(Formatted(n)) == n
            <==> n.sessionId != "" || (n.kind == UnknownKind && n.content == EmptyContent && n.isAgentMessage == Absent)
  {
  }

  function Normalized(items: seq<Item>): (ms: seq<Message>)
    ensures |ms| == |items|
    ensures forall i :: 0 <= i < |items| ==> ms[i] == Normalize(items[i])
  {
    seq(|items|, i requires 0 <= i < |items| => Normalize(items[i]))
  }

  /** `processAndSetGroupedInteractions` of the earlier page. */
  method Process(items: seq<Item>) returns (r: seq<SessionGroup>)
    ensures |items| == 0 ==> r == []
    ensures GroupingOf(Normalized(items), r)
    ensures multiset(Flatten(r)) == multiset(Normalized(items))
  {
    if |items| == 0 {
      r := [];
      assert GroupingOf(Normalized(items), r);
      return;
    }
    r := GroupAndRank(Normalized(items));
    FlattenGrouping(Normalized(items), r);
  }

  /** The `forEach` that concatenates every conversation into one list. */
  method Collect(groups: seq<SessionGroup>) returns (all: seq<Message>)
    ensures all == Flatten(groups)
  {
    all := [];
    var i := 0;
    while i < |groups|
      invariant 0 <= i <= |groups|
      invariant all == Flatten(groups[..i])
    {
      assert groups[..i + 1][..i] == groups[..i];
      all := all + groups[i].messages;
      i := i + 1;
    }
    assert groups[..|groups|] == groups;
  }

  /** What the insert handler regroups: every earlier record, then the new one. */
  function InsertInputs(all: seq<Message>, row: HistoryRow): seq<Item>
  {
    AsItems(all) + [Formatted(Format(row))]
  }

  /** The insert does not deduplicate: a row whose id is already shown leaves
      two records with that id. */
  lemma InsertKeepsDuplicate(all: seq<Message>, row: HistoryRow, shown: Message)
    requires shown in all && shown.id == row.id
    ensures !UniqueIds(multiset(Normalized(InsertInputs(all, row))))
  {
    var items := InsertInputs(all, row);
    var ms := Normalized(items);
    var k :| 0 <= k < |all| && all[k] == shown;
    var a, b := ms[k], ms[|all|];
    assert a.id == row.id && b.id == row.id;
    if a == b {
      assert ms == ms[..k] + [a] + ms[k + 1..|all|] + [b];
      assert multiset(ms)[a] >= 2;
    }
  }

  /** The state of the chatbot-interactions page. `failed` is its `error`
      state, which the initial load clears. The `catch` that would set it and
      empty the conversations (src/ChatbotInteractions.js:77-80) is not
      modelled: `getChatHistory` catches its own errors and answers `null`,
      so nothing reaches that branch, and `failed` stays false. */
  class LegacyView {
    var grouped: seq<SessionGroup>
    var loading: bool
    var failed: bool

    constructor()
      ensures grouped == [] && loading && !failed
    {
      grouped := [];
      loading := true;
      failed := false;
    }

    /** `initialLoad`: `getChatHistory()` answers rows, or nothing on error,
        which is grouped as an empty list. */
    method InitialLoad(rows: Option<seq<HistoryRow>>)
      modifies this
      ensures GroupingOf(Normalized(RawItems(if rows.Some? then rows.value else [])), grouped)
      ensures rows == None || rows == Some([]) ==> grouped == []
      ensures !loading && !failed
    {
      loading := true;
      grouped := Process(RawItems(if rows.Some? then rows.value else []));
      failed := false;
      loading := false;
    }

    /** The INSERT callback: flatten, append the formatted row, regroup. */
    method OnInsert(row: HistoryRow)
      modifies this
      ensures GroupingOf(Normalized(InsertInputs(Flatten(old(grouped)), row)), grouped)
      ensures multiset(Flatten(grouped)) == multiset(Normalized(InsertInputs(Flatten(old(grouped)), row)))
      ensures |Flatten(grouped)| == |Flatten(old(grouped))| + 1
      ensures loading == old(loading) && failed == old(failed)
    {
      var all := Collect(grouped);
      grouped := Process(InsertInputs(all, row));
      assert |multiset(Flatten(grouped))| == |Normalized(InsertInputs(all, row))|;
    }
  }
}
