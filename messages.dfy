/** Rows of the chat-history table and the message records built from them. */
module Messages {
  import opened Sessions

  /** The `message` column: `{ type, content }`, either key possibly missing. */
  datatype Payload = Payload(kind: Option<string>, content: Option<string>)

  /** A row of `n8n_chat_histories` as the backend stores and pushes it.
      Times are milliseconds; `status` is the delivery state patched by the
      status-update endpoint. */
  datatype HistoryRow = HistoryRow(
    id: int,
    sessionId: SessionId,
    message: Option<Payload>,
    time: int,
    sentByAgent: Option<bool>,
    agentId: Option<UserId>,
    status: Option<string>)

  /** A message as the views use it. `isAgentMessage` is a missing key in the
      records built by the earlier grouper, which never sets it. */
  datatype Message = Message(
    id: int,
    sessionId: SessionId,
    kind: string,
    content: string,
    time: int,
    isAgentMessage: Field<bool>)

  /** What a grouper is handed: raw rows from the backend, or records it built
      earlier (a realtime insert regroups the flattened previous output). */
  datatype Item = Raw(row: HistoryRow) | Formatted(msg: Message)

  const UnknownKind := "unknown"
  const EmptyContent := "Mensaje vacío"

  /** `s || fallback` for a string that may be missing: "" is falsy too. */
  function StringOr(s: Option<string>, fallback: string): (r: string)
    ensures s.Some? && s.value != "" ==> r == s.value
    ensures s == None || s == Some("") ==> r == fallback
  {
    if s.Some? && s.value != "" then s.value else fallback
  }

  /** `item.message?.type || 'unknown'` */
  function KindOf(row: HistoryRow): string
  {
    StringOr(if row.message.Some? then row.message.value.kind else None, UnknownKind)
  }

  /** `item.message?.content || 'Mensaje vacío'` */
  function ContentOf(row: HistoryRow): string
  {
    StringOr(if row.message.Some? then row.message.value.content else None, EmptyContent)
  }

  /** A formatted record seen again as a raw object: it has `id` and `time`,
      but no `session_id`, no `message` and no `sent_by_agent` key. */
  function AsRow(m: Message): (r: HistoryRow)
    ensures r.id == m.id && r.time == m.time
  {
    HistoryRow(m.id, "", None, m.time, None, None, None)
  }

  /** No two messages share an id: every id belongs to one record, held once. */
  ghost predicate UniqueIds(bag: multiset<Message>)
  {
    forall x, y :: x in bag && y in bag && x.id == y.id ==> x == y && bag[x] == 1
  }

  /** `ms.filter(m => m.id !== id)` */
  function WithoutId(ms: seq<Message>, id: int): (r: seq<Message>)
    ensures multiset(r) <= multiset(ms)
    ensures forall m :: m in r ==> m.id != id
    ensures forall m :: m in ms && m.id != id ==> m in r
    decreases |ms|
  {
    if ms == [] then []
    else
      var init, last := ms[..|ms| - 1], ms[|ms| - 1];
      assert ms == init + [last];
      WithoutId(init, id) + (if last.id != id then [last] else [])
  }

  /** The filter keeps the order of the records: filtering a concatenation
      concatenates the filtered parts, so the kept records of an earlier part
      all come before those of a later one. */
  lemma {:induction false} WithoutIdAppend(a: seq<Message>, b: seq<Message>, id: int)
    ensures WithoutId(a + b, id) == WithoutId(a, id) + WithoutId(b, id)
    decreases |b|
  {
    if b == [] {
      assert a + b == a;
    } else {
      var init, last := b[..|b| - 1], b[|b| - 1];
      assert a + b == (a + init) + [last] && b == init + [last];
      WithoutIdSnoc(a + init, last, id);
      WithoutIdSnoc(init, last, id);
      WithoutIdAppend(a, init, id);
      ConcatAssoc(WithoutId(a, id), WithoutId(init, id), if last.id != id then [last] else []);
    }
  }

  lemma ConcatAssoc(x: seq<Message>, y: seq<Message>, z: seq<Message>)
    ensures (x + y) + z == x + (y + z)
  {
  }

  /** One more record at the end is filtered on its own. */
  lemma WithoutIdSnoc(ms: seq<Message>, m: Message, id: int)
    ensures WithoutId(ms + [m], id) == WithoutId(ms, id) + (if m.id != id then [m] else [])
  {
    var s := ms + [m];
    assert s[..|s| - 1] == ms && s[|s| - 1] == m;
  }

  /** Every record without the id is kept as many times as it occurs, and
      none with it. */
  lemma {:induction false} WithoutIdCount(ms: seq<Message>, id: int)
    ensures forall x :: multiset(WithoutId(ms, id))[x] == if x.id != id then multiset(ms)[x] else 0
    decreases |ms|
  {
    if ms != [] {
      var init, last := ms[..|ms| - 1], ms[|ms| - 1];
      assert ms == init + [last];
      WithoutIdSnoc(init, last, id);
      WithoutIdCount(init, id);
    }
  }

  /** A single record is kept exactly when its id differs. */
  lemma WithoutIdOne(m: Message, id: int)
    ensures WithoutId([m], id) == if m.id != id then [m] else []
  {
    assert [m][..0] == [];
  }

  /** Dropping every record with `m`'s id and adding `m` leaves `m` the only
      record with that id, and keeps the other ids unique if they were. */
  lemma ReplaceById(ms: seq<Message>, m: Message)
    ensures UniqueIds(multiset(ms)) ==> UniqueIds(multiset(WithoutId(ms, m.id)) + multiset{m})
    ensures forall x :: x in multiset(WithoutId(ms, m.id)) + multiset{m} && x.id == m.id ==> x == m
    ensures (multiset(WithoutId(ms, m.id)) + multiset{m})[m] == 1
  {
    var sub := multiset(WithoutId(ms, m.id));
    assert m !in sub;
  }

  /** Raw rows handed to a grouper. */
  function RawItems(rows: seq<HistoryRow>): (items: seq<Item>)
    ensures |items| == |rows|
    ensures forall i :: 0 <= i < |rows| ==> items[i] == Raw(rows[i])
  {
    seq(|rows|, i requires 0 <= i < |rows| => Raw(rows[i]))
  }

  /** Built records handed back to a grouper. */
  function AsItems(ms: seq<Message>): (items: seq<Item>)
    ensures |items| == |ms|
    ensures forall i :: 0 <= i < |ms| ==> items[i] == Formatted(ms[i])
  {
    seq(|ms|, i requires 0 <= i < |ms| => Formatted(ms[i]))
  }
}
