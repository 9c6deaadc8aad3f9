/**
 Messages and chats of an account: how a delivered copy merges with the stored row, deletion
 marks, and the chat's last message. Times are in milliseconds.
 */
module Messages {
  import opened Wrappers

  /** What an edit replaces. */
  datatype Version = Version(kind: string, text: Option<string>, isEdited: bool, editedAt: Option<int>)

  datatype Row = Row(version: Version, html: Option<string>, sender: Option<int>, sentAt: int, outgoing: bool,
                     deletedAt: Option<int>, views: Option<nat>)

  /** An unedited copy never overwrites an edited row, an older edit never a newer one. */
  predicate Overwrites(ex: Version, t: Version) {
    || !t.isEdited
    || (ex.isEdited && (t.editedAt.None? || ex.editedAt.None? || ex.editedAt.value >= t.editedAt.value))
  }

  function Merge(t: Row, ex: Row): Row {
    if Overwrites(ex.version, t.version) then
      Row(ex.version, ex.html, Coalesce(ex.sender, t.sender), t.sentAt, ex.outgoing,
          Coalesce(t.deletedAt, ex.deletedAt), Coalesce(ex.views, t.views))
    else t
  }

  // ---------------------------------------------------------------------------
  // Convergence
  // ---------------------------------------------------------------------------

  /** The version stored after the copies were delivered in this order. */
  function Final(vs: seq<Version>): Version
    requires vs != []
  {
    var ex := vs[|vs| - 1];
    if |vs| == 1 then ex
    else
      var t := Final(vs[..|vs| - 1]);
      if Overwrites(ex, t) then ex else t
  }

  /** Unedited copies are one version; two edits are one version or have different times. */
  predicate Compatible(a: Version, b: Version) {
    if a.isEdited != b.isEdited then true
    else a == b || (a.isEdited && a.editedAt.Some? && b.editedAt.Some? && a.editedAt != b.editedAt)
  }

  /** Two copies may come in either order exactly when they are compatible. */
  lemma PairCommutes(a: Version, b: Version)
    ensures Final([a, b]) == Final([b, a]) <==> Compatible(a, b)
  {
    assert [a, b][..1] == [a] && [b, a][..1] == [b];
    assert Final([a]) == a && Final([b]) == b;
  }

  /** c is the version d gives way to. */
  predicate Beats(c: Version, d: Version) {
    || c == d
    || (c.isEdited && !d.isEdited)
    || (c.isEdited && d.isEdited && c.editedAt.Some? && d.editedAt.Some? && c.editedAt.value > d.editedAt.value)
  }

  ghost predicate Settled(vs: set<Version>) {
    forall a, b | a in vs && b in vs :: Compatible(a, b)
  }

  ghost predicate From(vs: seq<Version>, copies: set<Version>) {
    vs != [] && forall v | v in vs :: v in copies
  }

  /** What is kept of two compatible versions beats both, and all that the stored one beat. */
  lemma KeptBeats(ex: Version, t: Version, v: Version)
    requires Compatible(ex, t) && Compatible(ex, v) && Compatible(t, v) && Beats(t, v)
    ensures var kept := if Overwrites(ex, t) then ex else t;
            Beats(kept, v) && Beats(kept, ex) && Beats(kept, t)
  {
  }

  /** The newest edit wins, if there is one. */
  lemma {:induction false} NewestWins(vs: seq<Version>, copies: set<Version>)
    requires From(vs, copies) && Settled(copies)
    ensures Final(vs) in vs && forall v | v in vs :: Beats(Final(vs), v)
  {
    hide Overwrites, Compatible, Beats;
    var ex := vs[|vs| - 1];
    if |vs| > 1 {
      var init := vs[..|vs| - 1];
      NewestWins(init, copies);
      assert vs == init + [ex];
      forall v | v in init
        ensures Beats(Final(vs), v) && Beats(Final(vs), ex)
      {
        KeptBeats(ex, Final(init), v);
      }
      assert Beats(Final(init), Final(init));
      KeptBeats(ex, Final(init), Final(init));
    } else {
      BeatsItself(ex);
    }
  }

  lemma BeatsItself(v: Version)
    ensures Beats(v, v)
  {
  }

  /** Two deliveries of the same copies: another order, any redeliveries. */
  ghost predicate SameCopies(x: seq<Version>, y: seq<Version>, copies: set<Version>) {
    From(x, copies) && From(y, copies) && forall v :: v in x <==> v in y
  }

  ghost predicate Converges(copies: set<Version>) {
    forall x, y | SameCopies(x, y, copies) :: Final(x) == Final(y)
  }

  /** Delivery order and redelivery do not matter exactly when the copies are compatible. */
  lemma ConvergesIffCompatible(copies: set<Version>)
    ensures Converges(copies) <==> Settled(copies)
  {
    if Settled(copies) {
      forall x, y | SameCopies(x, y, copies)
        ensures Final(x) == Final(y)
      {
        NewestWins(x, copies);
        NewestWins(y, copies);
        assert Beats(Final(x), Final(y)) && Beats(Final(y), Final(x));
      }
    }
    if Converges(copies) {
      forall a, b | a in copies && b in copies
        ensures Compatible(a, b)
      {
        assert SameCopies([a, b], [b, a], copies);
        PairCommutes(a, b);
      }
    }
  }

  // ---------------------------------------------------------------------------
  // The tables
  // ---------------------------------------------------------------------------

  /** details: the columns where a missing value keeps the stored one. */
  datatype ChatRow = ChatRow(chatType: string, details: map<string, string>, lastId: Option<int>, lastAt: Option<int>)

  datatype Db = Db(messages: map<(int, int), Row>, chats: map<int, ChatRow>)

  datatype Op =
    | UpsertMessage(chat: int, id: int, row: Row)
    | MarkDeleted(scope: Option<int>, ids: set<int>, at: int)
    | UpsertChat(chat: int, chatRow: ChatRow)
    | Touch(chat: int, id: int, sentAt: Option<int>)

  const EMPTY := Db(map[], map[])

  predicate Newer(ex: Option<int>, t: Option<int>) {
    ex.Some? && (t.None? || ex.value > t.value)
  }

  /** upsert_chat on a stored chat; details given win, the last message never moves back. */
  function MergeChat(t: ChatRow, ex: ChatRow): ChatRow {
    var newer := Newer(ex.lastId, t.lastId);
    ChatRow(ex.chatType, t.details + ex.details,
            if newer then ex.lastId else t.lastId, if newer then ex.lastAt else t.lastAt)
  }

  function Touched(t: ChatRow, id: int, at: Option<int>): ChatRow {
    if t.lastId.None? || t.lastId.value <= id then t.(lastId := Some(id), lastAt := at) else t
  }

  function TouchIn(chats: map<int, ChatRow>, chat: int, id: int, at: Option<int>): map<int, ChatRow> {
    if chat in chats then chats[chat := Touched(chats[chat], id, at)] else chats
  }

  /** Without a chat, the ids are those of private chats and basic groups. */
  predicate InScope(db: Db, chat: int, scope: Option<int>) {
    if scope.Some? then chat == scope.value
    else chat in db.chats && db.chats[chat].chatType in ["private", "group"]
  }

  predicate Marks(db: Db, key: (int, int), scope: Option<int>, ids: set<int>)
    requires key in db.messages
  {
    key.1 in ids && db.messages[key].deletedAt.None? && InScope(db, key.0, scope)
  }

  function AfterDelete(db: Db, scope: Option<int>, ids: set<int>, at: int): Db {
    db.(messages := map k | k in db.messages ::
          if Marks(db, k, scope, ids) then db.messages[k].(deletedAt := Some(at)) else db.messages[k])
  }

  /** A message of an unknown chat is refused by the foreign key. */
  function AfterUpsert(db: Db, chat: int, id: int, row: Row): Db {
    if chat !in db.chats then db
    else
      var key := (chat, id);
      var stored := if key in db.messages then Merge(db.messages[key], row) else row;
      Db(db.messages[key := stored], TouchIn(db.chats, chat, id, Some(row.sentAt)))
  }

  function After(db: Db, op: Op): Db {
    match op
    case UpsertMessage(chat, id, row) => AfterUpsert(db, chat, id, row)
    case MarkDeleted(scope, ids, at) => AfterDelete(db, scope, ids, at)
    case UpsertChat(chat, row) =>
      db.(chats := db.chats[chat := if chat in db.chats then MergeChat(db.chats[chat], row) else row])
    case Touch(chat, id, at) => db.(chats := TouchIn(db.chats, chat, id, at))
  }

  function Run(db: Db, ops: seq<Op>): Db {
    if ops == [] then db else After(Run(db, ops[..|ops| - 1]), ops[|ops| - 1])
  }

  /** The versions of one message that were delivered to a known chat, in order. */
  function VersionsOf(ops: seq<Op>, chat: int, id: int): seq<Version> {
    if ops == [] then []
    else
      var init, op := ops[..|ops| - 1], ops[|ops| - 1];
      VersionsOf(init, chat, id)
      + if op.UpsertMessage? && op.chat == chat && op.id == id && chat in Run(EMPTY, init).chats then [op.row.version]
        else []
  }

  /** Whatever else happens between them, the stored version is that of the copies delivered. */
  lemma {:induction false} StoredVersion(ops: seq<Op>, chat: int, id: int)
    ensures var db, vs := Run(EMPTY, ops), VersionsOf(ops, chat, id);
            && ((chat, id) in db.messages <==> vs != [])
            && (vs != [] ==> db.messages[(chat, id)].version == Final(vs))
  {
    hide Overwrites, TouchIn, InScope, MergeChat;
    if ops != [] {
      var init, op := ops[..|ops| - 1], ops[|ops| - 1];
      StoredVersion(init, chat, id);
      var vs := VersionsOf(init, chat, id);
      if op.UpsertMessage? && op.chat == chat && op.id == id && chat in Run(EMPTY, init).chats {
        assert (vs + [op.row.version])[..|vs|] == vs;
      } else {
        assert VersionsOf(ops, chat, id) == vs;
      }
    }
  }

  /**
   Version convergence over whole runs: two runs that delivered the same compatible copies
   of a message store the same text, type, edit mark and edit time, whatever order, however
   often, and whatever else they did.
   */
  lemma RunsConverge(a: seq<Op>, b: seq<Op>, chat: int, id: int, copies: set<Version>)
    requires Settled(copies) && SameCopies(VersionsOf(a, chat, id), VersionsOf(b, chat, id), copies)
    ensures (chat, id) in Run(EMPTY, a).messages && (chat, id) in Run(EMPTY, b).messages
    ensures Run(EMPTY, a).messages[(chat, id)].version == Run(EMPTY, b).messages[(chat, id)].version
  {
    hide Run, VersionsOf, Final, Settled;
    StoredVersion(a, chat, id);
    StoredVersion(b, chat, id);
    ConvergesIffCompatible(copies);
    assert Final(VersionsOf(a, chat, id)) == Final(VersionsOf(b, chat, id));
  }

  /** A deletion mark keeps its first value in any run. */
  lemma {:induction false} DeletionSticks(db: Db, ops: seq<Op>, key: (int, int))
    requires key in db.messages && db.messages[key].deletedAt.Some?
    ensures key in Run(db, ops).messages && Run(db, ops).messages[key].deletedAt == db.messages[key].deletedAt
  {
    hide Overwrites, TouchIn, InScope, MergeChat;
    if ops != [] {
      DeletionSticks(db, ops[..|ops| - 1], key);
    }
  }

  /**
   A delete is final: whatever follows it, every stored message it names in its scope stays
   deleted, at the time of its first mark, and is never stored as undeleted again.
   */
  lemma DeleteIsFinal(db: Db, scope: Option<int>, ids: set<int>, at: int, key: (int, int), later: seq<Op>)
    requires key in db.messages && key.1 in ids && InScope(db, key.0, scope)
    ensures var after := Run(After(db, MarkDeleted(scope, ids, at)), later).messages;
            key in after && after[key].deletedAt == Coalesce(db.messages[key].deletedAt, Some(at))
  {
    hide Run, InScope;
    DeletionSticks(After(db, MarkDeleted(scope, ids, at)), later, key);
  }

  /**
   The marks put on a message, in order: by a delete that names it in its scope while it is
   stored, and by a delivered copy that carries one and is not skipped by the guard.
   */
  function MarksOf(ops: seq<Op>, key: (int, int)): seq<int> {
    if ops == [] then []
    else
      var init, op := ops[..|ops| - 1], ops[|ops| - 1];
      MarksOf(init, key) + MarksBy(Run(EMPTY, init), op, key)
  }

  function MarksBy(db: Db, op: Op, key: (int, int)): seq<int> {
    if op.MarkDeleted? && key in db.messages && key.1 in op.ids && InScope(db, key.0, op.scope) then [op.at]
    else if op.UpsertMessage? && (op.chat, op.id) == key && op.chat in db.chats && op.row.deletedAt.Some?
            && (key in db.messages ==> Overwrites(op.row.version, db.messages[key].version))
    then [op.row.deletedAt.value]
    else []
  }

  /**
   Over any run a stored message is deleted if and only if a mark was put on it, at the time of
   the first mark: no other delete, copy or chat update sets, moves or clears it.
   */
  lemma {:induction false} FirstMarkStays(ops: seq<Op>, key: (int, int))
    ensures var db, marks := Run(EMPTY, ops), MarksOf(ops, key);
            if key in db.messages then db.messages[key].deletedAt == (if marks == [] then None else Some(marks[0]))
            else marks == []
  {
    hide Overwrites, TouchIn, InScope, MergeChat;
    if ops != [] {
      FirstMarkStays(ops[..|ops| - 1], key);
    }
  }

  // ---------------------------------------------------------------------------
  // The chat's last message
  // ---------------------------------------------------------------------------

  datatype Tail = Tail(id: Option<int>, at: Option<int>)

  /** The last message an operation presents for a chat it finds (or inserts). */
  function PresentedBy(db: Db, op: Op, chat: int): seq<Tail> {
    match op
    case UpsertChat(c, row) => if c == chat then [Tail(row.lastId, row.lastAt)] else []
    case UpsertMessage(c, id, row) => if c == chat && chat in db.chats then [Tail(Some(id), Some(row.sentAt))] else []
    case Touch(c, id, at) => if c == chat && chat in db.chats then [Tail(Some(id), at)] else []
    case MarkDeleted(_, _, _) => []
  }

  /** Every last message ever presented for the chat, from its insert on. */
  function Presented(ops: seq<Op>, chat: int): seq<Tail> {
    if ops == [] then []
    else
      var init := ops[..|ops| - 1];
      Presented(init, chat) + PresentedBy(Run(EMPTY, init), ops[|ops| - 1], chat)
  }

  /** t is the tail with the largest id ever presented, with a time presented with that id. */
  ghost predicate IsNewest(t: ChatRow, tails: seq<Tail>) {
    && (t.lastId.None? ==> forall p | p in tails :: p.id.None?)
    && (t.lastId.Some? ==> Tail(t.lastId, t.lastAt) in tails
                           && forall p | p in tails && p.id.Some? :: p.id.value <= t.lastId.value)
  }

  lemma NewestExtends(t: ChatRow, u: ChatRow, tails: seq<Tail>, p: Tail)
    requires IsNewest(t, tails)
    requires if p.id.Some? && (t.lastId.None? || p.id.value > t.lastId.value) then u.lastId == p.id && u.lastAt == p.at
             else (u.lastId == t.lastId && u.lastAt == t.lastAt) || (u.lastId == p.id == t.lastId && u.lastAt == p.at)
    ensures IsNewest(u, tails + [p])
  {
  }

  /** Monotone tail: in any run a chat's last message is the newest one ever presented. */
  lemma {:induction false} TailIsNewest(ops: seq<Op>, chat: int)
    ensures chat in Run(EMPTY, ops).chats ==> IsNewest(Run(EMPTY, ops).chats[chat], Presented(ops, chat))
    ensures chat !in Run(EMPTY, ops).chats ==> Presented(ops, chat) == []
  {
    hide Overwrites, Merge, InScope, IsNewest;
    if ops != [] {
      var init, op := ops[..|ops| - 1], ops[|ops| - 1];
      TailIsNewest(init, chat);
      TailStep(Run(EMPTY, init), op, Presented(init, chat), chat);
    }
  }

  lemma TailStep(db: Db, op: Op, tails: seq<Tail>, chat: int)
    requires chat in db.chats ==> IsNewest(db.chats[chat], tails)
    requires chat !in db.chats ==> tails == []
    ensures var t := After(db, op);
            && (chat in t.chats ==> IsNewest(t.chats[chat], tails + PresentedBy(db, op, chat)))
            && (chat !in t.chats ==> tails + PresentedBy(db, op, chat) == [])
  {
    hide Overwrites, Merge, InScope;
    var ps := PresentedBy(db, op, chat);
    if ps == [] {
      assert tails + ps == tails;
    } else if chat in db.chats {
      NewestExtends(db.chats[chat], After(db, op).chats[chat], tails, ps[0]);
    }
  }

  // ---------------------------------------------------------------------------
  // The repository as it runs
  // ---------------------------------------------------------------------------

  class Repo {
    var messages: map<(int, int), Row>
    var chats: map<int, ChatRow>

    constructor ()
      ensures Value() == EMPTY
    {
      messages, chats := map[], map[];
    }

    function Value(): Db
      reads this
    {
      Db(messages, chats)
    }

    /** False: no such chat (the foreign key refuses the row). */
    method UpsertOne(chat: int, id: int, row: Row) returns (stored: bool)
      modifies this
      ensures Value() == After(old(Value()), UpsertMessage(chat, id, row))
      ensures stored <==> chat in old(chats)
      ensures stored ==> (chat, id) in messages
    {
      if chat !in chats {
        return false;
      }
      var key := (chat, id);
      if key in messages {
        var t := messages[key];
        if !t.version.isEdited
           || (row.version.isEdited
               && (t.version.editedAt.None? || row.version.editedAt.None?
                   || row.version.editedAt.value >= t.version.editedAt.value)) {
          messages := messages[key := row.(sender := Coalesce(row.sender, t.sender), sentAt := t.sentAt,
                                           deletedAt := Coalesce(t.deletedAt, row.deletedAt),
                                           views := Coalesce(row.views, t.views))];
        }
      } else {
        messages := messages[key := row];
      }
      TouchLast(chat, id, Some(row.sentAt));
      stored := true;
    }

    method TouchLast(chat: int, id: int, at: Option<int>)
      modifies this`chats
      ensures Value() == After(old(Value()), Touch(chat, id, at))
    {
      if chat in chats && (chats[chat].lastId.None? || chats[chat].lastId.value <= id) {
        chats := chats[chat := chats[chat].(lastId := Some(id), lastAt := at)];
      }
    }

    method UpsertOneChat(chat: int, row: ChatRow)
      modifies this`chats
      ensures Value() == After(old(Value()), UpsertChat(chat, row))
    {
      if chat in chats {
        var t := chats[chat];
        var merged := row.(details := t.details + row.details);
        if row.lastId.None? || (t.lastId.Some? && row.lastId.value <= t.lastId.value) {
          merged := merged.(lastId := t.lastId, lastAt := t.lastAt);
        }
        chats := chats[chat := merged];
      } else {
        chats := chats[chat := row];
      }
    }

    /** The number of messages marked now. */
    method MarkAll(scope: Option<int>, ids: set<int>, at: int) returns (n: nat)
      modifies this`messages
      ensures Value() == After(old(Value()), MarkDeleted(scope, ids, at))
      ensures n == |set k | k in old(messages) && Marks(old(Value()), k, scope, ids)|
    {
      if ids == {} {
        assert (set k | k in messages && Marks(Value(), k, scope, ids)) == {};
        assert AfterDelete(Value(), scope, ids, at).messages == messages;
        return 0;
      }
      var marked := set k | k in messages && Marks(Value(), k, scope, ids);
      messages := map k | k in messages :: if k in marked then messages[k].(deletedAt := Some(at)) else messages[k];
      n := |marked|;
    }
  }
}
