/** The grouping pipeline both interaction views run: sort all messages by
    time, collect them per session into an insertion-ordered accumulator that
    also tracks each session's latest time, then order the sessions by that
    time, most recent first. */
module Grouping {
  import opened Sessions
  import opened Messages

  // ---------------------------------------------------------------------------
  // Stable sort by an integer key (`Array.prototype.sort` with `a - b` comparators)
  // ---------------------------------------------------------------------------

  predicate SortedBy<T>(s: seq<T>, key: T -> int)
  {
    forall i, j :: 0 <= i < j < |s| ==> key(s[i]) <= key(s[j])
  }

  /** No key in `s` is above `b`. */
  predicate BoundedBy<T>(s: seq<T>, key: T -> int, b: int)
  {
    forall i :: 0 <= i < |s| ==> key(s[i]) <= b
  }

  /** Inserts `x` after every element whose key is not greater than its own. */
  function InsertBy<T>(s: seq<T>, x: T, key: T -> int): (r: seq<T>)
    requires SortedBy(s, key)
    ensures SortedBy(r, key)
    ensures multiset(r) == multiset(s) + multiset{x}
    decreases |s|, 0
  {
    if s == [] || key(s[|s| - 1]) <= key(x) then
      s + [x]
    else
      var init, last := s[..|s| - 1], s[|s| - 1];
      assert s == init + [last];
      assert BoundedBy(init, key, key(last)) by {
        forall i | 0 <= i < |init| ensures key(init[i]) <= key(last) {
          assert init[i] == s[i];
        }
      }
      InsertKeepsBound(init, x, key, key(last));
      InsertBy(init, x, key) + [last]
  }

  /** Inserting an element under a bound keeps every key under it. */
  lemma InsertKeepsBound<T>(s: seq<T>, x: T, key: T -> int, b: int)
    requires SortedBy(s, key) && BoundedBy(s, key, b) && key(x) <= b
    ensures BoundedBy(InsertBy(s, x, key), key, b)
    decreases |s|, 1
  {
    var t := InsertBy(s, x, key);
    forall i | 0 <= i < |t| ensures key(t[i]) <= b {
      assert t[i] in multiset(t);
      if t[i] != x {
        assert t[i] in multiset(s);
        var j :| 0 <= j < |s| && s[j] == t[i];
      }
    }
  }

  /** A sort by `key`, ascending; elements with equal keys keep their order. */
  function SortBy<T>(s: seq<T>, key: T -> int): (r: seq<T>)
    ensures SortedBy(r, key)
    ensures multiset(r) == multiset(s)
    decreases |s|
  {
    if s == [] then []
    else
      assert s == s[..|s| - 1] + [s[|s| - 1]];
      InsertBy(SortBy(s[..|s| - 1], key), s[|s| - 1], key)
  }

  /** A permutation holds exactly the elements of the original. */
  lemma SameElements<T>(a: seq<T>, b: seq<T>)
    requires multiset(a) == multiset(b)
    ensures |a| == |b|
    ensures forall x :: x in a <==> x in b
  {
    assert |a| == |multiset(a)| == |multiset(b)| == |b|;
    forall x ensures x in a <==> x in b {
      assert x in a <==> x in multiset(a);
      assert x in b <==> x in multiset(b);
    }
  }

  // ---------------------------------------------------------------------------
  // Per-session selection and the latest time of a session
  // ---------------------------------------------------------------------------

  function TimeOf(m: Message): int { m.time }

  /** Ascending by time, as the views display a conversation. */
  predicate Chronological(ms: seq<Message>)
  {
    SortedBy(ms, TimeOf)
  }

  /** The messages of session `id`, in their order in `ms`. */
  function Only(ms: seq<Message>, id: SessionId): (r: seq<Message>)
    ensures |r| <= |ms|
    ensures forall m :: m in r ==> m in ms && m.sessionId == id
    decreases |ms|
  {
    if ms == [] then []
    else Only(ms[..|ms| - 1], id) + (if ms[|ms| - 1].sessionId == id then [ms[|ms| - 1]] else [])
  }

  lemma OnlySnoc(ms: seq<Message>, m: Message, id: SessionId)
    ensures Only(ms + [m], id) == Only(ms, id) + (if m.sessionId == id then [m] else [])
  {
    assert (ms + [m])[..|ms|] == ms;
  }

  lemma {:induction false} OnlyAbsent(ms: seq<Message>, id: SessionId)
    requires forall j :: 0 <= j < |ms| ==> ms[j].sessionId != id
    ensures Only(ms, id) == []
    decreases |ms|
  {
    if ms != [] {
      OnlyAbsent(ms[..|ms| - 1], id);
    }
  }

  /** Every message of `ms` with session `id` is in `Only(ms, id)`. */
  lemma {:induction false} OnlyComplete(ms: seq<Message>, m: Message)
    requires m in ms
    ensures m in Only(ms, m.sessionId)
    decreases |ms|
  {
    var init := ms[..|ms| - 1];
    assert ms == init + [ms[|ms| - 1]];
    if ms[|ms| - 1] != m {
      OnlyComplete(init, m);
    }
  }

  /** Selecting one session out of a chronological list keeps it chronological. */
  lemma {:induction false} OnlyChronological(ms: seq<Message>, id: SessionId)
    requires Chronological(ms)
    ensures Chronological(Only(ms, id))
    decreases |ms|
  {
    if ms != [] {
      var init, last := ms[..|ms| - 1], ms[|ms| - 1];
      assert Chronological(init);
      OnlyChronological(init, id);
      var p := Only(init, id);
      forall i | 0 <= i < |p| ensures p[i].time <= last.time {
        assert p[i] in init;
        var j :| 0 <= j < |init| && init[j] == p[i];
        assert ms[j] == init[j];
      }
    }
  }

  function Max(a: int, b: int): int { if a < b then b else a }

  /** `lastMessageTime`: starts at 0 and takes `Math.max` with every time. */
  function LastTime(ms: seq<Message>): (r: int)
    decreases |ms|
  {
    if ms == [] then 0 else Max(LastTime(ms[..|ms| - 1]), ms[|ms| - 1].time)
  }

  /** The latest time is at least 0, at least every message's time, and is 0
      or one of the times. */
  lemma {:induction false} LastTimeIsMax(ms: seq<Message>)
    ensures LastTime(ms) >= 0
    ensures forall m :: m in ms ==> m.time <= LastTime(ms)
    ensures LastTime(ms) == 0 || exists m :: m in ms && m.time == LastTime(ms)
    decreases |ms|
  {
    if ms != [] {
      var init, last := ms[..|ms| - 1], ms[|ms| - 1];
      assert ms == init + [last];
      LastTimeIsMax(init);
      if LastTime(init) != 0 && LastTime(ms) == LastTime(init) {
        var m :| m in init && m.time == LastTime(init);
        assert m in ms;
      }
    }
  }

  /** For a chronological session the latest time is its last message's, unless
      that time is negative. */
  lemma LastTimeOfChronological(ms: seq<Message>)
    requires Chronological(ms) && ms != []
    ensures LastTime(ms) == Max(0, ms[|ms| - 1].time)
  {
    LastTimeIsMax(ms);
    if LastTime(ms) != 0 {
      var m :| m in ms && m.time == LastTime(ms);
      var j :| 0 <= j < |ms| && ms[j] == m;
      if j < |ms| - 1 {
        assert TimeOf(ms[j]) <= TimeOf(ms[|ms| - 1]);
      }
    }
  }

  // ---------------------------------------------------------------------------
  // The accumulator of the reduce step
  // ---------------------------------------------------------------------------

  /** One entry of the accumulator: `{ messages, lastMessageTime }` under its key. */
  datatype Group = Group(sessionId: SessionId, messages: seq<Message>, lastTime: int)

  /** One entry of the result: a session and its conversation. */
  datatype SessionGroup = SessionGroup(sessionId: SessionId, messages: seq<Message>)

  function KeysOf(gs: seq<Group>): seq<SessionId>
  {
    seq(|gs|, i requires 0 <= i < |gs| => gs[i].sessionId)
  }

  predicate DistinctKeys(gs: seq<Group>)
  {
    forall i, j :: 0 <= i < j < |gs| ==> gs[i].sessionId != gs[j].sessionId
  }

  /** `acc[sid]`: the position of a key in the insertion-ordered accumulator. */
  function IndexOf(gs: seq<Group>, id: SessionId): (r: nat)
    ensures r <= |gs|
    ensures r < |gs| ==> gs[r].sessionId == id
    ensures r == |gs| ==> id !in KeysOf(gs)
    decreases |gs|
  {
    if gs == [] then 0
    else if gs[0].sessionId == id then 0
    else
      var r := 1 + IndexOf(gs[1..], id);
      assert r == |gs| ==> KeysOf(gs) == [gs[0].sessionId] + KeysOf(gs[1..]);
      r
  }

  /** One accumulator entry after the messages `done` have been reduced: it
      holds exactly its session's messages, in order, and their running maximum. */
  ghost predicate EntryOf(g: Group, done: seq<Message>)
  {
    g.messages == Only(done, g.sessionId) && g.messages != [] && g.lastTime == LastTime(g.messages)
  }

  /** Every entry is what `EntryOf` says. */
  ghost predicate Entries(gs: seq<Group>, done: seq<Message>)
  {
    forall i :: 0 <= i < |gs| ==> EntryOf(gs[i], done)
  }

  /** Every message reduced so far has an entry for its session. */
  predicate Covered(gs: seq<Group>, done: seq<Message>)
  {
    forall j :: 0 <= j < |done| ==> done[j].sessionId in KeysOf(gs)
  }

  /** What the accumulator holds after the messages `done` have been reduced:
      one entry per session met so far, as `EntryOf` says. */
  ghost predicate Accumulates(gs: seq<Group>, done: seq<Message>)
  {
    DistinctKeys(gs) && Entries(gs, done) && Covered(gs, done)
  }

  /** A message of another session leaves an entry as it is. */
  lemma EntryOfOther(g: Group, done: seq<Message>, m: Message)
    requires EntryOf(g, done) && g.sessionId != m.sessionId
    ensures EntryOf(g, done + [m])
  {
    OnlySnoc(done, m, g.sessionId);
  }

  /** A message of the entry's session is appended and raises its time. */
  lemma EntryOfSame(g: Group, done: seq<Message>, m: Message)
    requires EntryOf(g, done) && g.sessionId == m.sessionId
    ensures EntryOf(Group(g.sessionId, g.messages + [m], Max(g.lastTime, m.time)), done + [m])
  {
    OnlySnoc(done, m, g.sessionId);
    assert (g.messages + [m])[..|g.messages|] == g.messages;
  }

  /** The first message of a session opens an entry holding just it. */
  lemma EntryOfNew(done: seq<Message>, m: Message)
    requires forall j :: 0 <= j < |done| ==> done[j].sessionId != m.sessionId
    ensures EntryOf(Group(m.sessionId, [m], Max(0, m.time)), done + [m])
  {
    OnlyAbsent(done, m.sessionId);
    OnlySnoc(done, m, m.sessionId);
    assert LastTime([m]) == Max(LastTime([]), m.time);
  }

  lemma KeysOfSnoc(gs: seq<Group>, g: Group)
    ensures KeysOf(gs + [g]) == KeysOf(gs) + [g.sessionId]
  {
  }

  /** A key that is not among the keys belongs to no entry. */
  lemma KeyAbsent(gs: seq<Group>, id: SessionId)
    requires id !in KeysOf(gs)
    ensures forall h :: h in gs ==> h.sessionId != id
  {
    forall h | h in gs ensures h.sessionId != id {
      var p :| 0 <= p < |gs| && gs[p] == h;
      assert KeysOf(gs)[p] == h.sessionId;
    }
  }

  /** The sessions of `done + [m]` all have entries once `m`'s session has one
      and no key was lost. */
  lemma KeysCover(gs: seq<Group>, gs': seq<Group>, done: seq<Message>, m: Message)
    requires Covered(gs, done)
    requires forall k :: k in KeysOf(gs) ==> k in KeysOf(gs')
    requires m.sessionId in KeysOf(gs')
    ensures Covered(gs', done + [m])
  {
    forall j | 0 <= j < |done + [m]| ensures (done + [m])[j].sessionId in KeysOf(gs') {
      if j < |done| {
        assert done[j].sessionId in KeysOf(gs);
      }
    }
  }

  /** No message reduced so far belongs to a session without an entry. */
  lemma NotMetBefore(gs: seq<Group>, done: seq<Message>, id: SessionId)
    requires Covered(gs, done) && id !in KeysOf(gs)
    ensures forall j :: 0 <= j < |done| ==> done[j].sessionId != id
  {
    forall j | 0 <= j < |done| ensures done[j].sessionId != id {
      assert done[j].sessionId in KeysOf(gs);
    }
  }

  /** Appending a new session's entry keeps every other entry right. */
  lemma EntriesAppend(gs: seq<Group>, done: seq<Message>, m: Message)
    requires Entries(gs, done)
    requires forall h :: h in gs ==> h.sessionId != m.sessionId
    requires forall j :: 0 <= j < |done| ==> done[j].sessionId != m.sessionId
    ensures Entries(gs + [Group(m.sessionId, [m], Max(0, m.time))], done + [m])
  {
    var gs' := gs + [Group(m.sessionId, [m], Max(0, m.time))];
    forall p | 0 <= p < |gs'| ensures EntryOf(gs'[p], done + [m]) {
      if p < |gs| {
        assert gs'[p] == gs[p] && gs[p] in gs;
        EntryOfOther(gs[p], done, m);
      } else {
        EntryOfNew(done, m);
      }
    }
  }

  /** Updating the message's own entry keeps every entry right. */
  lemma EntriesUpdate(gs: seq<Group>, done: seq<Message>, m: Message, i: nat)
    requires Entries(gs, done) && DistinctKeys(gs) && i < |gs| && gs[i].sessionId == m.sessionId
    ensures Entries(gs[i := Group(m.sessionId, gs[i].messages + [m], Max(gs[i].lastTime, m.time))], done + [m])
  {
    var gs' := gs[i := Group(m.sessionId, gs[i].messages + [m], Max(gs[i].lastTime, m.time))];
    forall p | 0 <= p < |gs'| ensures EntryOf(gs'[p], done + [m]) {
      if p == i {
        EntryOfSame(gs[i], done, m);
      } else {
        EntryOfOther(gs[p], done, m);
      }
    }
  }

  /** A message of a session not met before opens a new entry at the end. */
  lemma AccumulateNew(gs: seq<Group>, done: seq<Message>, m: Message)
    requires Accumulates(gs, done) && m.sessionId !in KeysOf(gs)
    ensures Accumulates(gs + [Group(m.sessionId, [m], Max(0, m.time))], done + [m])
  {
    var g := Group(m.sessionId, [m], Max(0, m.time));
    KeyAbsent(gs, m.sessionId);
    AppendKeepsDistinct(gs, g);
    NotMetBefore(gs, done, m.sessionId);
    EntriesAppend(gs, done, m);
    KeysOfSnoc(gs, g);
    KeysCover(gs, gs + [g], done, m);
  }

  /** A message of a session already met is appended to its entry, whose
      running maximum takes the message's time. */
  lemma AccumulateExisting(gs: seq<Group>, done: seq<Message>, m: Message, i: nat)
    requires Accumulates(gs, done) && i < |gs| && gs[i].sessionId == m.sessionId
    ensures Accumulates(gs[i := Group(m.sessionId, gs[i].messages + [m], Max(gs[i].lastTime, m.time))], done + [m])
  {
    var gs' := gs[i := Group(m.sessionId, gs[i].messages + [m], Max(gs[i].lastTime, m.time))];
    assert KeysOf(gs') == KeysOf(gs);
    EntriesUpdate(gs, done, m, i);
    assert KeysOf(gs)[i] == m.sessionId;
    KeysCover(gs, gs', done, m);
  }

  /** One step of the `reduce`: `acc[sid]` is created on the session's first
      message; the message is pushed and `lastMessageTime` raised. */
  function Step(gs: seq<Group>, m: Message): seq<Group>
  {
    var i := IndexOf(gs, m.sessionId);
    if i == |gs| then gs + [Group(m.sessionId, [m], Max(0, m.time))]
    else gs[i := Group(m.sessionId, gs[i].messages + [m], Max(gs[i].lastTime, m.time))]
  }

  /** The `reduce` over the messages `done`. */
  function Reduce(done: seq<Message>): seq<Group>
    decreases |done|
  {
    if done == [] then [] else Step(Reduce(done[..|done| - 1]), done[|done| - 1])
  }

  /** The reduce builds what `Accumulates` describes. */
  lemma {:induction false} ReduceAccumulates(done: seq<Message>)
    ensures Accumulates(Reduce(done), done)
    decreases |done|
  {
    if done != [] {
      var init, m := done[..|done| - 1], done[|done| - 1];
      assert done == init + [m];
      ReduceAccumulates(init);
      var gs := Reduce(init);
      if IndexOf(gs, m.sessionId) == |gs| {
        AccumulateNew(gs, init, m);
      } else {
        AccumulateExisting(gs, init, m, IndexOf(gs, m.sessionId));
      }
    }
  }

  /** The reduce step: walks the sorted messages once, creating a session's
      entry on its first message and appending to it afterwards. */
  method GroupBySession(sorted: seq<Message>) returns (groups: seq<Group>)
    ensures groups == Reduce(sorted)
    ensures Accumulates(groups, sorted)
  {
    groups := [];
    var k := 0;
    while k < |sorted|
      invariant k <= |sorted|
      invariant groups == Reduce(sorted[..k])
    {
      var m := sorted[k];
      assert sorted[..k + 1][..k] == sorted[..k];
      var i := IndexOf(groups, m.sessionId);
      if i == |groups| {
        groups := groups + [Group(m.sessionId, [m], Max(0, m.time))];
      } else {
        groups := groups[i := Group(m.sessionId, groups[i].messages + [m], Max(groups[i].lastTime, m.time))];
      }
      k := k + 1;
    }
    assert sorted[..k] == sorted;
    ReduceAccumulates(sorted);
  }

  // ---------------------------------------------------------------------------
  // Ranking sessions and the result
  // ---------------------------------------------------------------------------

  /** The comparator `b.lastMessageTime - a.lastMessageTime` as an ascending key. */
  function Recency(g: Group): int { -g.lastTime }

  function Project(gs: seq<Group>): (r: seq<SessionGroup>)
    ensures |r| == |gs|
    ensures forall i :: 0 <= i < |gs| ==> r[i] == SessionGroup(gs[i].sessionId, gs[i].messages)
  {
    seq(|gs|, i requires 0 <= i < |gs| => SessionGroup(gs[i].sessionId, gs[i].messages))
  }

  /** `Object.entries(acc).sort(...)` followed by the reduce into the final object. */
  function Rank(gs: seq<Group>): seq<SessionGroup>
  {
    Project(SortBy(gs, Recency))
  }

  lemma {:induction false} InsertKeepsDistinct(s: seq<Group>, x: Group)
    requires SortedBy(s, Recency) && DistinctKeys(s)
    requires forall g :: g in s ==> g.sessionId != x.sessionId
    ensures DistinctKeys(InsertBy(s, x, Recency))
    decreases |s|
  {
    if s == [] || Recency(s[|s| - 1]) <= Recency(x) {
      AppendKeepsDistinct(s, x);
    } else {
      var init, last := s[..|s| - 1], s[|s| - 1];
      assert s == init + [last];
      assert InsertBy(s, x, Recency) == InsertBy(init, x, Recency) + [last];
      InsertKeepsDistinct(init, x);
      var t := InsertBy(init, x, Recency);
      SameElements(t, init + [x]);
      forall g | g in t ensures g.sessionId != last.sessionId {
        assert g in init + [x];
        if g != x {
          var j :| 0 <= j < |init| && init[j] == g;
          assert s[j] == g;
        }
      }
      AppendKeepsDistinct(t, last);
    }
  }

  lemma AppendKeepsDistinct(s: seq<Group>, x: Group)
    requires DistinctKeys(s)
    requires forall g :: g in s ==> g.sessionId != x.sessionId
    ensures DistinctKeys(s + [x])
  {
    forall i, j | 0 <= i < j < |s + [x]| ensures (s + [x])[i].sessionId != (s + [x])[j].sessionId {
      if j == |s| {
        assert (s + [x])[i] == s[i] && s[i] in s;
      }
    }
  }

  lemma {:induction false} SortKeepsDistinct(s: seq<Group>)
    requires DistinctKeys(s)
    ensures DistinctKeys(SortBy(s, Recency))
    decreases |s|
  {
    if s != [] {
      var init, last := s[..|s| - 1], s[|s| - 1];
      SortKeepsDistinct(init);
      var t := SortBy(init, Recency);
      SameElements(t, init);
      forall g | g in t ensures g.sessionId != last.sessionId {
        var j :| 0 <= j < |init| && init[j] == g;
        assert s[j] == g;
      }
      InsertKeepsDistinct(t, last);
    }
  }

  function SessionKeys(r: seq<SessionGroup>): seq<SessionId>
  {
    seq(|r|, i requires 0 <= i < |r| => r[i].sessionId)
  }

  function Flatten(r: seq<SessionGroup>): seq<Message>
    decreases |r|
  {
    if r == [] then [] else Flatten(r[..|r| - 1]) + r[|r| - 1].messages
  }

  /** What `processAndSetGroupedInteractions` promises of its result for the
      normalised messages `ms`: one entry per session, distinct, each holding
      exactly that session's messages in ascending time order, sessions ordered
      by descending latest time. */
  ghost predicate GroupingOf(ms: seq<Message>, r: seq<SessionGroup>)
  {
    && (forall i, j :: 0 <= i < j < |r| ==> r[i].sessionId != r[j].sessionId)
    && (forall i :: 0 <= i < |r| ==>
          r[i].messages == Only(SortBy(ms, TimeOf), r[i].sessionId) && r[i].messages != [])
    && (forall m :: m in ms ==> m.sessionId in SessionKeys(r))
    && (forall i, j :: 0 <= i < j < |r| ==> LastTime(r[i].messages) >= LastTime(r[j].messages))
  }

  /** Reordering the accumulated entries keeps each one what it was. */
  lemma RankedEntries(groups: seq<Group>, sorted: seq<Message>, ranked: seq<Group>)
    requires Accumulates(groups, sorted) && multiset(ranked) == multiset(groups)
    ensures forall i :: 0 <= i < |ranked| ==> EntryOf(ranked[i], sorted)
  {
    SameElements(ranked, groups);
    forall i | 0 <= i < |ranked| ensures EntryOf(ranked[i], sorted) {
      assert ranked[i] in groups;
    }
  }

  /** Every message's session is among the ranked entries. */
  lemma RankedCovers(ms: seq<Message>, sorted: seq<Message>, groups: seq<Group>, ranked: seq<Group>)
    requires multiset(sorted) == multiset(ms) && multiset(ranked) == multiset(groups)
    requires forall j :: 0 <= j < |sorted| ==> sorted[j].sessionId in KeysOf(groups)
    ensures forall m :: m in ms ==> m.sessionId in SessionKeys(Project(ranked))
  {
    SameElements(sorted, ms);
    SameElements(ranked, groups);
    var r := Project(ranked);
    forall m | m in ms ensures m.sessionId in SessionKeys(r) {
      var j :| 0 <= j < |sorted| && sorted[j] == m;
      assert m.sessionId in KeysOf(groups);
      var p :| 0 <= p < |groups| && groups[p].sessionId == m.sessionId;
      assert groups[p] in ranked;
      var q :| 0 <= q < |ranked| && ranked[q] == groups[p];
      assert SessionKeys(r)[q] == m.sessionId;
    }
  }

  /** Entries sorted by recency come most recent first. */
  lemma RankedByRecency(sorted: seq<Message>, ranked: seq<Group>)
    requires SortedBy(ranked, Recency)
    requires forall i :: 0 <= i < |ranked| ==> EntryOf(ranked[i], sorted)
    ensures forall i, j :: 0 <= i < j < |ranked| ==> LastTime(ranked[i].messages) >= LastTime(ranked[j].messages)
  {
    forall i, j | 0 <= i < j < |ranked| ensures LastTime(ranked[i].messages) >= LastTime(ranked[j].messages) {
      assert EntryOf(ranked[i], sorted) && EntryOf(ranked[j], sorted);
      assert Recency(ranked[i]) <= Recency(ranked[j]);
    }
  }

  /** The pipeline after normalisation: sort, reduce, rank. */
  method GroupAndRank(ms: seq<Message>) returns (r: seq<SessionGroup>)
    ensures GroupingOf(ms, r)
  {
    var sorted := SortBy(ms, TimeOf);
    var groups := GroupBySession(sorted);
    var ranked := SortBy(groups, Recency);
    SortKeepsDistinct(groups);
    RankedEntries(groups, sorted, ranked);
    RankedCovers(ms, sorted, groups, ranked);
    RankedByRecency(sorted, ranked);
    r := Project(ranked);
    forall i | 0 <= i < |r| ensures r[i].messages == Only(sorted, r[i].sessionId) && r[i].messages != [] {
      assert EntryOf(ranked[i], sorted);
    }
  }

  // ---------------------------------------------------------------------------
  // Consequences of GroupingOf
  // ---------------------------------------------------------------------------

  /** Each conversation is in ascending time order. */
  lemma GroupsAreChronological(ms: seq<Message>, r: seq<SessionGroup>, i: int)
    requires GroupingOf(ms, r) && 0 <= i < |r|
    ensures Chronological(r[i].messages)
  {
    OnlyChronological(SortBy(ms, TimeOf), r[i].sessionId);
  }

  /** Every input message is in the entry of its own session. */
  lemma MessageInItsGroup(ms: seq<Message>, r: seq<SessionGroup>, m: Message)
    requires GroupingOf(ms, r) && m in ms
    ensures exists i :: 0 <= i < |r| && r[i].sessionId == m.sessionId && m in r[i].messages
  {
    var i :| 0 <= i < |r| && SessionKeys(r)[i] == m.sessionId;
    var sorted := SortBy(ms, TimeOf);
    SameElements(sorted, ms);
    OnlyComplete(sorted, m);
  }

  /** The entries are exactly the sessions of the input. */
  lemma SessionsOfGrouping(ms: seq<Message>, r: seq<SessionGroup>)
    requires GroupingOf(ms, r)
    ensures forall id :: id in SessionKeys(r) <==> exists m :: m in ms && m.sessionId == id
  {
    var sorted := SortBy(ms, TimeOf);
    SameElements(sorted, ms);
    forall id | id in SessionKeys(r) ensures exists m :: m in ms && m.sessionId == id {
      var i :| 0 <= i < |r| && SessionKeys(r)[i] == id;
      var m := r[i].messages[0];
      assert m in Only(sorted, id);
    }
  }

  // ---------------------------------------------------------------------------
  // Flattening a result back into messages
  // ---------------------------------------------------------------------------

  /** The conversations of the sessions `keys`, one after the other. */
  function Concat(keys: seq<SessionId>, ms: seq<Message>): seq<Message>
    decreases |keys|
  {
    if keys == [] then [] else Concat(keys[..|keys| - 1], ms) + Only(ms, keys[|keys| - 1])
  }

  /** A message of a session that has no key is in no part of the split. */
  lemma {:induction false} ConcatSnocOutside(keys: seq<SessionId>, ms: seq<Message>, m: Message)
    requires forall i :: 0 <= i < |keys| ==> keys[i] != m.sessionId
    ensures Concat(keys, ms + [m]) == Concat(keys, ms)
    decreases |keys|
  {
    if keys != [] {
      var init, last := keys[..|keys| - 1], keys[|keys| - 1];
      ConcatSnocOutside(init, ms, m);
      OnlySnoc(ms, m, last);
    }
  }

  /** A message of a session that has exactly one key lands in that key's part. */
  lemma {:induction false} ConcatSnoc(keys: seq<SessionId>, ms: seq<Message>, m: Message)
    requires forall i, j :: 0 <= i < j < |keys| ==> keys[i] != keys[j]
    requires m.sessionId in keys
    ensures multiset(Concat(keys, ms + [m])) == multiset(Concat(keys, ms)) + multiset{m}
    decreases |keys|
  {
    var init, last := keys[..|keys| - 1], keys[|keys| - 1];
    assert keys == init + [last];
    OnlySnoc(ms, m, last);
    if m.sessionId == last {
      forall i | 0 <= i < |init| ensures init[i] != m.sessionId {
        assert init[i] == keys[i];
      }
      ConcatSnocOutside(init, ms, m);
    } else {
      assert m.sessionId in init;
      forall i, j | 0 <= i < j < |init| ensures init[i] != init[j] {
        assert init[i] == keys[i] && init[j] == keys[j];
      }
      ConcatSnoc(init, ms, m);
    }
  }

  /** Distinct keys that cover every session split the messages without loss. */
  lemma {:induction false} ConcatCovers(keys: seq<SessionId>, ms: seq<Message>)
    requires forall i, j :: 0 <= i < j < |keys| ==> keys[i] != keys[j]
    requires forall m :: m in ms ==> m.sessionId in keys
    ensures multiset(Concat(keys, ms)) == multiset(ms)
    decreases |ms|
  {
    if ms == [] {
      ConcatEmpty(keys);
    } else {
      var init, last := ms[..|ms| - 1], ms[|ms| - 1];
      assert ms == init + [last];
      ConcatCovers(keys, init);
      ConcatSnoc(keys, init, last);
    }
  }

  lemma {:induction false} ConcatEmpty(keys: seq<SessionId>)
    ensures Concat(keys, []) == []
    decreases |keys|
  {
    if keys != [] {
      ConcatEmpty(keys[..|keys| - 1]);
    }
  }

  lemma {:induction false} FlattenIsConcat(r: seq<SessionGroup>, ms: seq<Message>)
    requires forall i :: 0 <= i < |r| ==> r[i].messages == Only(ms, r[i].sessionId)
    ensures Flatten(r) == Concat(SessionKeys(r), ms)
    decreases |r|
  {
    if r != [] {
      var init, last := r[..|r| - 1], r[|r| - 1];
      var keys := SessionKeys(r);
      assert keys[..|keys| - 1] == SessionKeys(init);
      assert keys[|keys| - 1] == last.sessionId;
      assert forall i :: 0 <= i < |init| ==> init[i] == r[i];
      FlattenIsConcat(init, ms);
      calc {
        Flatten(r);
        Flatten(init) + last.messages;
        Concat(SessionKeys(init), ms) + Only(ms, last.sessionId);
        Concat(keys, ms);
      }
    }
  }

  /** Flattening the result gives back exactly the input messages. */
  lemma FlattenGrouping(ms: seq<Message>, r: seq<SessionGroup>)
    requires GroupingOf(ms, r)
    ensures multiset(Flatten(r)) == multiset(ms)
  {
    var sorted := SortBy(ms, TimeOf);
    SameElements(sorted, ms);
    FlattenIsConcat(r, sorted);
    ConcatCovers(SessionKeys(r), sorted);
  }
}
