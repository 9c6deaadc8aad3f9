/**
 What the rows of messages and chats come to over whole runs, field by field: the stored row is
 told from the copies delivered, a chat's details from the chat updates, and the time of its
 last message from the operations that presented it.
 */
module MessageRules {
  import opened Wrappers
  import opened Messages

  // ---------------------------------------------------------------------------
  // The fields of a message
  // ---------------------------------------------------------------------------

  /** The copies of one message that were delivered to a known chat, in order. */
  function CopiesOf(ops: seq<Op>, chat: int, id: int): seq<Row> {
    if ops == [] then []
    else
      var init, op := ops[..|ops| - 1], ops[|ops| - 1];
      CopiesOf(init, chat, id)
      + if op.UpsertMessage? && op.chat == chat && op.id == id && chat in Run(EMPTY, init).chats then [op.row] else []
  }

  /** After t came c: an unedited copy of an edited message is late, and so is an edit older than t. */
  predicate IsLate(c: Version, t: Version) {
    t.isEdited
    && (!c.isEdited || (c.editedAt.Some? && t.editedAt.Some? && c.editedAt.value < t.editedAt.value))
  }

  /** The copies that were not late, each measured against the one before it. */
  function OnTime(copies: seq<Row>): (r: seq<Row>)
    ensures copies != [] ==> r != [] && r[0] == copies[0]
  {
    if copies == [] then []
    else if |copies| == 1 then copies
    else
      var init, c := OnTime(copies[..|copies| - 1]), copies[|copies| - 1];
      if IsLate(c.version, init[|init| - 1].version) then init else init + [c]
  }

  /** The last value given, None if there is none. */
  function LastGiven<T>(values: seq<Option<T>>): Option<T> {
    if values == [] then None
    else if values[|values| - 1].Some? then values[|values| - 1]
    else LastGiven(values[..|values| - 1])
  }

  function Senders(rows: seq<Row>): seq<Option<int>> {
    seq(|rows|, i requires 0 <= i < |rows| => rows[i].sender)
  }

  function Views(rows: seq<Row>): seq<Option<nat>> {
    seq(|rows|, i requires 0 <= i < |rows| => rows[i].views)
  }

  /**
   r is what is left of the copies: sent when the first one says, the contents those of the last
   one that was not late, the sender and the views the last ones given by a copy not late.
   */
  ghost predicate IsLeftOf(r: Row, copies: seq<Row>)
    requires copies != []
  {
    var taken := OnTime(copies);
    var last := taken[|taken| - 1];
    && r.sentAt == copies[0].sentAt
    && r.version == last.version && r.html == last.html && r.outgoing == last.outgoing
    && r.sender == LastGiven(Senders(taken)) && r.views == LastGiven(Views(taken))
  }

  lemma LeftOfOne(c: Row)
    ensures IsLeftOf(c, [c])
  {
    assert Senders([c]) == [c.sender] && Views([c]) == [c.views];
    assert LastGiven([c.sender]) == c.sender && LastGiven([c.views]) == c.views;
  }

  lemma LeftOfMore(t: Row, copies: seq<Row>, c: Row)
    requires copies != [] && IsLeftOf(t, copies)
    ensures IsLeftOf(Merge(t, c), copies + [c])
  {
    var all, taken := copies + [c], OnTime(copies);
    assert all[..|all| - 1] == copies && all[|all| - 1] == c && |all| > 1;
    assert OnTime(all) == if IsLate(c.version, t.version) then taken else taken + [c];
    if !IsLate(c.version, t.version) {
      assert Senders(taken + [c]) == Senders(taken) + [c.sender] && Views(taken + [c]) == Views(taken) + [c.views];
      assert (Senders(taken) + [c.sender])[..|taken|] == Senders(taken);
      assert (Views(taken) + [c.views])[..|taken|] == Views(taken);
    }
  }

  /**
   Over any run a message is stored exactly if a copy of it was delivered to a known chat, and
   its row is what is left of the copies, whatever else happened.
   */
  lemma {:induction false} StoredRow(ops: seq<Op>, chat: int, id: int)
    ensures var db, copies := Run(EMPTY, ops), CopiesOf(ops, chat, id);
            if copies == [] then (chat, id) !in db.messages
            else (chat, id) in db.messages && IsLeftOf(db.messages[(chat, id)], copies)
  {
    hide Overwrites, TouchIn, InScope, MergeChat, IsLeftOf, Merge;
    if ops != [] {
      var init, op := ops[..|ops| - 1], ops[|ops| - 1];
      StoredRow(init, chat, id);
      var db, copies := Run(EMPTY, init), CopiesOf(init, chat, id);
      if op.UpsertMessage? && op.chat == chat && op.id == id && chat in db.chats {
        assert CopiesOf(ops, chat, id) == copies + [op.row];
        if copies == [] {
          assert copies + [op.row] == [op.row];
          LeftOfOne(op.row);
        } else {
          LeftOfMore(db.messages[(chat, id)], copies, op.row);
        }
      } else {
        assert CopiesOf(ops, chat, id) == copies;
        if copies != [] {
          OthersLeave(db, op, chat, id, copies);
        }
      }
    }
  }

  /** What is not a copy of the message changes at most its deletion mark. */
  lemma OthersLeave(db: Db, op: Op, chat: int, id: int, copies: seq<Row>)
    requires (chat, id) in db.messages && copies != [] && IsLeftOf(db.messages[(chat, id)], copies)
    requires !(op.UpsertMessage? && op.chat == chat && op.id == id && chat in db.chats)
    ensures var after := After(db, op).messages;
            (chat, id) in after && IsLeftOf(after[(chat, id)], copies)
  {
    hide Overwrites, TouchIn, InScope, MergeChat, Merge, OnTime, LastGiven, Senders, Views;
  }

  // ---------------------------------------------------------------------------
  // Deletes
  // ---------------------------------------------------------------------------

  /**
   A delete marks the undeleted messages it names, in its chat, or, without a chat, in private
   chats and basic groups; it changes nothing else of them, and nothing of a chat.
   */
  lemma DeleteIs(db: Db, scope: Option<int>, ids: set<int>, at: int, key: (int, int))
    ensures var after := After(db, MarkDeleted(scope, ids, at));
            && after.chats == db.chats
            && (key in after.messages <==> key in db.messages)
            && (key in db.messages ==>
                  var was, r := db.messages[key], after.messages[key];
                  && r == was.(deletedAt := r.deletedAt)
                  && (scope.Some? && key.0 != scope.value ==> r == was)
                  && (scope.None? && key.0 !in db.chats ==> r == was)
                  && (scope.None? && key.0 in db.chats && db.chats[key.0].chatType !in {"private", "group"} ==> r == was)
                  && (key.1 !in ids || was.deletedAt.Some? ==> r == was)
                  && (was.deletedAt.None? && key.1 in ids && scope == Some(key.0) ==> r.deletedAt == Some(at))
                  && (was.deletedAt.None? && key.1 in ids && scope.None? && key.0 in db.chats ==>
                        (r.deletedAt == Some(at) <==> db.chats[key.0].chatType in {"private", "group"})))
  {
  }

  // ---------------------------------------------------------------------------
  // The fields of a chat
  // ---------------------------------------------------------------------------

  /** The updates of a chat, in order. */
  function UpdatesOf(ops: seq<Op>, chat: int): seq<ChatRow> {
    if ops == [] then []
    else
      var op := ops[|ops| - 1];
      UpdatesOf(ops[..|ops| - 1], chat) + if op.UpsertChat? && op.chat == chat then [op.chatRow] else []
  }

  /** The value of a column that the last update gave that gave one. */
  function LastDetail(updates: seq<ChatRow>, column: string): Option<string> {
    if updates == [] then None
    else
      var last := updates[|updates| - 1].details;
      if column in last then Some(last[column]) else LastDetail(updates[..|updates| - 1], column)
  }

  /** The type is the last one given, and each column holds the last value given for it. */
  ghost predicate IsUpdated(t: ChatRow, updates: seq<ChatRow>)
    requires updates != []
  {
    && t.chatType == updates[|updates| - 1].chatType
    && forall column ::
         LastDetail(updates, column) == if column in t.details then Some(t.details[column]) else None
  }

  lemma UpdatedMore(t: ChatRow, updates: seq<ChatRow>, u: ChatRow)
    requires updates != [] && IsUpdated(t, updates)
    ensures IsUpdated(MergeChat(t, u), updates + [u])
  {
    assert (updates + [u])[..|updates|] == updates;
    forall column
      ensures LastDetail(updates + [u], column)
              == if column in MergeChat(t, u).details then Some(MergeChat(t, u).details[column]) else None
    {
      assert LastDetail(updates, column) == if column in t.details then Some(t.details[column]) else None;
    }
  }

  lemma UpdatedOnce(u: ChatRow)
    ensures IsUpdated(u, [u])
  {
    assert [u][..0] == [];
    forall column
      ensures LastDetail([u], column) == if column in u.details then Some(u.details[column]) else None
    {
      assert LastDetail([], column) == None;
    }
  }

  lemma SameDetails(t: ChatRow, u: ChatRow, updates: seq<ChatRow>)
    requires updates != [] && IsUpdated(t, updates) && u.chatType == t.chatType && u.details == t.details
    ensures IsUpdated(u, updates)
  {
  }

  /** Over any run a chat is known exactly if it was updated, and its details are those last given. */
  lemma {:induction false} DetailsAre(ops: seq<Op>, chat: int)
    ensures var db, updates := Run(EMPTY, ops), UpdatesOf(ops, chat);
            if updates == [] then chat !in db.chats
            else chat in db.chats && IsUpdated(db.chats[chat], updates)
  {
    hide Merge, InScope, MergeChat, IsUpdated;
    if ops != [] {
      var init, op := ops[..|ops| - 1], ops[|ops| - 1];
      DetailsAre(init, chat);
      var db, updates := Run(EMPTY, init), UpdatesOf(init, chat);
      if op.UpsertChat? && op.chat == chat {
        assert UpdatesOf(ops, chat) == updates + [op.chatRow];
        if updates == [] {
          assert updates + [op.chatRow] == [op.chatRow];
          UpdatedOnce(op.chatRow);
        } else {
          UpdatedMore(db.chats[chat], updates, op.chatRow);
        }
      } else {
        assert UpdatesOf(ops, chat) == updates;
        if updates != [] {
          SameDetails(db.chats[chat], After(db, op).chats[chat], updates);
        }
      }
    }
  }

  // ---------------------------------------------------------------------------
  // The time of the last message
  // ---------------------------------------------------------------------------

  /** The last message a stored copy or a touch presents, if the chat is known. */
  function TouchBy(db: Db, op: Op, chat: int): Option<(int, Option<int>)> {
    if chat !in db.chats then None
    else if op.UpsertMessage? && op.chat == chat then Some((op.id, Some(op.row.sentAt)))
    else if op.Touch? && op.chat == chat then Some((op.id, op.sentAt))
    else None
  }

  /** The last message an update of the chat names. */
  function ListedBy(op: Op, chat: int): Option<(int, Option<int>)> {
    if op.UpsertChat? && op.chat == chat && op.chatRow.lastId.Some? then Some((op.chatRow.lastId.value, op.chatRow.lastAt))
    else None
  }

  function TimeFor(p: Option<(int, Option<int>)>, id: int): seq<Option<int>> {
    if p.Some? && p.value.0 == id then [p.value.1] else []
  }

  /** The times that came with a message id by stored copies and touches, in order. */
  function TouchesOf(ops: seq<Op>, chat: int, id: int): seq<Option<int>> {
    if ops == [] then []
    else
      var init := ops[..|ops| - 1];
      TouchesOf(init, chat, id) + TimeFor(TouchBy(Run(EMPTY, init), ops[|ops| - 1], chat), id)
  }

  /** The times that came with a message id in updates of the chat, in order. */
  function ListedTimes(ops: seq<Op>, chat: int, id: int): seq<Option<int>> {
    if ops == [] then []
    else ListedTimes(ops[..|ops| - 1], chat, id) + TimeFor(ListedBy(ops[|ops| - 1], chat), id)
  }

  predicate Came(ops: seq<Op>, chat: int, id: int) {
    TouchesOf(ops, chat, id) != [] || ListedTimes(ops, chat, id) != []
  }

  function TailOf(db: Db, chat: int): Tail {
    if chat in db.chats then Tail(db.chats[chat].lastId, db.chats[chat].lastAt) else Tail(None, None)
  }

  /**
   The last message has the largest id that came; its time is the last one that a stored copy
   or a touch brought for it, or else the first one that an update brought.
   */
  ghost predicate IsLastMessage(t: Tail, ops: seq<Op>, chat: int) {
    && (t.id.Some? ==>
          var touches, listed := TouchesOf(ops, chat, t.id.value), ListedTimes(ops, chat, t.id.value);
          if touches != [] then t.at == touches[|touches| - 1] else listed != [] && t.at == listed[0])
    && (forall id | Came(ops, chat, id) :: t.id.Some? && id <= t.id.value)
  }

  /** Where one operation takes the last message of a chat. */
  lemma TailMoves(db: Db, op: Op, chat: int)
    ensures var t, u := TailOf(db, chat), TailOf(After(db, op), chat);
            var touch, listed := TouchBy(db, op, chat), ListedBy(op, chat);
            if touch.Some? then
              listed.None? && u == if t.id.None? || t.id.value <= touch.value.0 then Tail(Some(touch.value.0), touch.value.1)
                                   else t
            else if listed.Some? then
              u == if t.id.None? || t.id.value < listed.value.0 then Tail(Some(listed.value.0), listed.value.1) else t
            else u.id == t.id && (t.id.Some? ==> u.at == t.at)
  {
    hide Merge, InScope;
  }

  lemma CameNext(init: seq<Op>, op: Op, chat: int, id: int)
    ensures TouchesOf(init + [op], chat, id) == TouchesOf(init, chat, id) + TimeFor(TouchBy(Run(EMPTY, init), op, chat), id)
    ensures ListedTimes(init + [op], chat, id) == ListedTimes(init, chat, id) + TimeFor(ListedBy(op, chat), id)
    ensures Run(EMPTY, init + [op]) == After(Run(EMPTY, init), op)
  {
    hide TimeFor, TouchBy, ListedBy, After;
    assert (init + [op])[..|init|] == init;
  }

  lemma LastMessageStep(init: seq<Op>, op: Op, chat: int)
    requires IsLastMessage(TailOf(Run(EMPTY, init), chat), init, chat)
    ensures IsLastMessage(TailOf(Run(EMPTY, init + [op]), chat), init + [op], chat)
  {
    hide Run, After, TailOf, TouchBy, ListedBy, TouchesOf, ListedTimes;
    TailMoves(Run(EMPTY, init), op, chat);
    CameNext(init, op, chat, 0);
    var t, u := TailOf(Run(EMPTY, init), chat), TailOf(Run(EMPTY, init + [op]), chat);
    forall id
      ensures Came(init + [op], chat, id) ==> u.id.Some? && id <= u.id.value
    {
      CameNext(init, op, chat, id);
      assert Came(init, chat, id) ==> t.id.Some? && id <= t.id.value;
    }
    if u.id.Some? {
      CameNext(init, op, chat, u.id.value);
      assert t.id != u.id ==> !Came(init, chat, u.id.value);
    }
  }

  /** Over any run a chat's last message is told by the times that came with it. */
  lemma {:induction false} LastMessageIs(ops: seq<Op>, chat: int)
    ensures IsLastMessage(TailOf(Run(EMPTY, ops), chat), ops, chat)
  {
    hide Run, After;
    if ops == [] {
      assert Run(EMPTY, ops) == EMPTY by { NothingDone(); }
    } else {
      var init := ops[..|ops| - 1];
      LastMessageIs(init, chat);
      LastMessageStep(init, ops[|ops| - 1], chat);
      assert ops == init + [ops[|ops| - 1]];
    }
  }

  lemma NothingDone()
    ensures Run(EMPTY, []) == EMPTY
  {
  }
}
