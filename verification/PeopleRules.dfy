/**
 Contacts in full: whom an upsert moves, by phones; what becomes of an identity's profile; and
 what a person is called, reached by and noted with after an upsert, a merge, a split or an edit.
 */
module PeopleRules {
  import opened Wrappers
  import opened People

  // ---------------------------------------------------------------------------
  // Whom an upsert moves
  // ---------------------------------------------------------------------------

  /** Where an identity is before it can be moved: a new one has the next person. */
  function PersonBefore(c: Contacts, k: nat): nat {
    if k < |c.identities| then c.identities[k].person else c.nextPerson
  }

  /** An unpinned identity with the row's phone. */
  predicate Carries(t: Contacts, k: nat, row: UserRow) {
    k < |t.identities| && row.phone.Some? && t.identities[k].phone == row.phone && !t.identities[k].pinned
  }

  /** Two identities of different platforms that the row's phone brings together. */
  predicate Meets(t: Contacts, i: nat, j: nat, row: UserRow) {
    && Carries(t, i, row) && Carries(t, j, row) && t.identities[i].platform != t.identities[j].platform
  }

  /** Such identities that belonged to two people. */
  predicate Unites(c: Contacts, t: Contacts, i: nat, j: nat, row: UserRow) {
    Meets(t, i, j, row) && PersonBefore(c, i) != PersonBefore(c, j)
  }

  /** The identity of the row. */
  predicate IsRows(t: Contacts, i: nat, platform: Platform, row: UserRow) {
    i < |t.identities| && t.identities[i].platform == platform && t.identities[i].externalId == row.externalId
  }

  /** What an upsert comes to, before and after a merge. */
  lemma UpsertIs(c: Contacts, platform: Platform, row: UserRow, t: Contacts) returns (i: nat)
    requires Upserts(c, platform, row, t)
    ensures var r := Recorded(c, platform, row);
            && i == IdOf(c, platform, row) && i < |r.identities| == |t.identities|
            && IsRows(r, i, platform, row) && IsRows(t, i, platform, row)
            && (row.phone.Some? ==> r.identities[i].phone == row.phone)
            && (forall k | 0 <= k < |r.identities| ::
                  t.identities[k] == r.identities[k].(person := t.identities[k].person)
                  && r.identities[k].person == PersonBefore(c, k))
  {
    hide NonEmpty, DisplayName, Joined, Used, Recorded, IdOf;
    i := IdOf(c, platform, row);
    RecordedIs(c, platform, row);
    UpsertMoves(c, platform, row, t);
  }

  lemma RecordedIs(c: Contacts, platform: Platform, row: UserRow)
    ensures var r, i := Recorded(c, platform, row), IdOf(c, platform, row);
            && i < |r.identities| && IsRows(r, i, platform, row)
            && (row.phone.Some? ==> r.identities[i].phone == row.phone)
            && forall k | 0 <= k < |r.identities| :: r.identities[k].person == PersonBefore(c, k)
  {
    hide DisplayName;
  }

  lemma UpsertMoves(c: Contacts, platform: Platform, row: UserRow, t: Contacts)
    requires Upserts(c, platform, row, t)
    ensures var r := Recorded(c, platform, row);
            && |t.identities| == |r.identities|
            && forall k | 0 <= k < |r.identities| ::
                 t.identities[k] == r.identities[k].(person := t.identities[k].person)
  {
    hide Recorded, IdOf, Joined, Used;
  }

  /**
   Nobody is moved but by a phone: an identity whose person changed has the row's phone and
   shares its new, older person with an identity of the other platform with that phone; one
   of the two is the row's, and neither is pinned. At most one identity moves.
   */
  lemma MovedByPhone(c: Contacts, platform: Platform, row: UserRow, t: Contacts, k: nat)
    requires Upserts(c, platform, row, t) && k < |t.identities| && t.identities[k].person != PersonBefore(c, k)
    ensures exists j: nat :: Unites(c, t, k, j, row)
                             && t.identities[j].person == t.identities[k].person == PersonBefore(c, j)
                             && PersonBefore(c, j) < PersonBefore(c, k)
                             && (IsRows(t, k, platform, row) || IsRows(t, j, platform, row))
    ensures forall m: nat | m < |t.identities| && m != k :: t.identities[m].person == PersonBefore(c, m)
  {
    hide NonEmpty, DisplayName, Joined, Used, Updated, Recorded, IdOf;
    var i := UpsertIs(c, platform, row, t);
    var r := Recorded(c, platform, row);
    var f := WithPhone(r, i, row.phone.value);
    var j: nat :| Chosen(f, i, j) && t == AutoMerged(f, i, j);
    var other := if k == i then j else i;
    assert Unites(c, t, k, other, row);
  }

  /**
   And by a phone they are: if the row's identity is not pinned and an unpinned one of the other
   platform with its phone has another person, it meets the one of the oldest such person, on
   the older of the two people.
   */
  lemma PhoneMoves(c: Contacts, platform: Platform, row: UserRow, t: Contacts, i: nat, j: nat)
    requires Sound(c) && Upserts(c, platform, row, t) && IsRows(t, i, platform, row) && Unites(c, t, i, j, row)
    ensures exists k: nat :: Unites(c, t, i, k, row) && PersonBefore(c, k) <= PersonBefore(c, j)
                             && t.identities[i].person == t.identities[k].person
                             && t.identities[i].person == if PersonBefore(c, i) < PersonBefore(c, k) then PersonBefore(c, i)
                                                          else PersonBefore(c, k)
  {
    hide NonEmpty, DisplayName, Joined, Used, Updated, Recorded, IdOf, Sound;
    var x := UpsertIs(c, platform, row, t);
    OneIdentity(c, platform, row, t, x, i);
    var r := Recorded(c, platform, row);
    var f := WithPhone(r, i, row.phone.value);
    assert Twin(f, i, j);
    var k: nat :| Chosen(f, i, k) && t == AutoMerged(f, i, k);
    assert Unites(c, t, i, k, row);
  }

  /** A key has one identity. */
  lemma OneIdentity(c: Contacts, platform: Platform, row: UserRow, t: Contacts, i: nat, j: nat)
    requires Sound(c) && Upserts(c, platform, row, t) && i == IdOf(c, platform, row)
    requires IsRows(t, i, platform, row) && IsRows(t, j, platform, row)
    ensures i == j
  {
    hide NonEmpty, DisplayName, Joined, Used, Updated;
    var x := UpsertIs(c, platform, row, t);
    if j < |c.identities| {
      assert HasKey(c.identities[j], platform, row.externalId);
      if i < j {
        KeysDiffer(c.identities, i, j);
      } else if j < i < |c.identities| {
        KeysDiffer(c.identities, j, i);
      }
    }
  }

  lemma KeysDiffer(identities: seq<Identity>, i: nat, j: nat)
    requires KeysUnique(identities) && i < j < |identities|
    ensures !SameKey(identities[i], identities[j])
  {
  }

  /** Otherwise everybody stays. */
  lemma ElseNobodyMoves(c: Contacts, platform: Platform, row: UserRow, t: Contacts, i: nat)
    requires Sound(c) && Upserts(c, platform, row, t) && IsRows(t, i, platform, row)
    requires forall j: nat :: !Unites(c, t, i, j, row)
    ensures forall k: nat | k < |t.identities| :: t.identities[k].person == PersonBefore(c, k)
  {
    hide Upserts, Sound, Unites, IsRows;
    forall k: nat | k < |t.identities| && t.identities[k].person != PersonBefore(c, k)
      ensures false
    {
      MovedByPhone(c, platform, row, t, k);
      var j: nat :| Unites(c, t, k, j, row) && (IsRows(t, k, platform, row) || IsRows(t, j, platform, row));
      var x := UpsertIs(c, platform, row, t);
      UnitesBoth(c, t, k, j, row);
      if IsRows(t, k, platform, row) {
        OneIdentity(c, platform, row, t, x, k);
      } else {
        OneIdentity(c, platform, row, t, x, j);
      }
      OneIdentity(c, platform, row, t, x, i);
    }
  }

  lemma UnitesBoth(c: Contacts, t: Contacts, i: nat, j: nat, row: UserRow)
    requires Unites(c, t, i, j, row)
    ensures Unites(c, t, j, i, row)
  {
  }

  // ---------------------------------------------------------------------------
  // Profiles
  // ---------------------------------------------------------------------------

  /** A value given, if it is not empty, else the one known before. */
  predicate Takes(now: Option<string>, given: Option<string>, before: Option<string>) {
    if given.Some? && given.value != "" then now == given else now == before
  }

  /**
   An upsert gives the row's identity the names and phone of the row, keeping what is known for
   those that are missing, and leaves every other profile and every pin as it was. An
   identity that was not known is added at the end, without a pin.
   */
  lemma ProfilesAre(c: Contacts, platform: Platform, row: UserRow, t: Contacts) returns (i: nat)
    requires Sound(c) && row.phone != Some("") && Upserts(c, platform, row, t)
    ensures IsRows(t, i, platform, row) && i <= |c.identities|
    ensures |t.identities| == if i < |c.identities| then |c.identities| else |c.identities| + 1
    ensures i == |c.identities| ==> forall k | 0 <= k < |c.identities| :: !IsRows(c, k, platform, row)
    ensures forall k | 0 <= k < |c.identities| && k != i ::
              t.identities[k] == c.identities[k].(person := t.identities[k].person)
    ensures var x := t.identities[i];
            var was := if i < |c.identities| then c.identities[i]
                       else Identity(0, platform, row.externalId, None, None, None, None, false, false);
            && Takes(x.username, row.username, was.username) && Takes(x.firstName, row.firstName, was.firstName)
            && Takes(x.lastName, row.lastName, was.lastName) && Takes(x.phone, row.phone, was.phone)
            && x.isBot == row.isBot && x.pinned == was.pinned
  {
    hide DisplayName, Joined, Used, Sound;
    i := UpsertIs(c, platform, row, t);
    var r := Recorded(c, platform, row);
    assert t.identities[i] == r.identities[i].(person := t.identities[i].person);
  }

  // ---------------------------------------------------------------------------
  // People
  // ---------------------------------------------------------------------------

  /** First and last name, whichever there is; without both the username. */
  predicate IsNameOf(name: Option<string>, first: Option<string>, last: Option<string>, username: Option<string>) {
    var f, l := first.Some? && first.value != "", last.Some? && last.value != "";
    if f && l then name.Some? && |name.value| == |first.value| + 1 + |last.value| && first.value <= name.value
                   && name.value[|first.value|] == ' ' && name.value[|first.value| + 1..] == last.value
    else if f then name == first
    else if l then name == last
    else if username.Some? && username.value != "" then name == username
    else name.None?
  }

  /** What a person has after taking another's data: its own name and phone, else the other's; all tags and notes. */
  predicate Takeover(now: Person, own: Person, other: Person) {
    && now.name == (if own.name.Some? then own.name else other.name)
    && now.phone == (if own.phone.Some? then own.phone else other.phone)
    && now.tags == own.tags + other.tags
    && (if other.notes.None? || other.notes == Some("") then now.notes == own.notes
        else if own.notes.None? || own.notes == Some("") then now.notes == other.notes
        else now.notes == Some(own.notes.value + "\n" + other.notes.value))
  }

  lemma JoinedIs(own: Person, other: Person)
    ensures Takeover(Joined(own, other), own, other)
  {
  }

  /** A merge by hand: the target takes the source over, and every identity of the two is its own, pinned. */
  lemma MergedIs(c: Contacts, from: nat, to: nat)
    requires Sound(c) && from != to && from in c.people && to in c.people
    ensures MergePeople(c, from, to).Ok?
    ensures var t := MergePeople(c, from, to).value;
            && to in t.people && Takeover(t.people[to], c.people[to], c.people[from])
            && t.people.Keys == c.people.Keys - {from} && |t.identities| == |c.identities|
            && (forall p | p in t.people && p != to :: t.people[p] == c.people[p])
            && forall k | 0 <= k < |c.identities| ::
                 var x := c.identities[k];
                 t.identities[k] == if x.person == from || x.person == to then x.(person := to, pinned := true) else x
  {
    hide Joined, AllTags;
    MergeKeeps(c, from, to);
    JoinedIs(c.people[to], c.people[from]);
    var m := c.(identities := Gathered(c.identities, from, to));
    assert !Used(m.identities, from);
  }

  /** A merge by hand fails for one person and for a missing one, and then for nothing else. */
  lemma MergeRefused(c: Contacts, from: nat, to: nat)
    ensures MergePeople(c, from, to).Err? <==> from == to || from !in c.people || to !in c.people
    ensures from == to ==> MergePeople(c, from, to) == Err(SamePerson)
    ensures from != to && from !in c.people ==> MergePeople(c, from, to) == Err(PersonNotFound(from))
    ensures from != to && from in c.people && to !in c.people ==> MergePeople(c, from, to) == Err(PersonNotFound(to))
  {
    hide Absorbed;
  }

  /** A split: the new person is called and reached like the identity, without tags and notes. */
  lemma SplitIs(c: Contacts, i: nat)
    requires Sound(c) && i < |c.identities|
    ensures SplitIdentity(c, i).Ok?
    ensures var t, x := SplitIdentity(c, i).value, c.identities[i];
            && c.nextPerson in t.people && t.nextPerson == c.nextPerson + 1
            && var p := t.people[c.nextPerson];
               IsNameOf(p.name, x.firstName, x.lastName, x.username) && p.phone == x.phone && p.tags == {} && p.notes.None?
  {
    hide Sound;
    SplitKeeps(c, i);
  }

  /** In a run: a merge that is not refused has happened, and one that is refused has not. */
  lemma MergeStep(c: Contacts, from: nat, to: nat, t: Contacts)
    requires Sound(c) && Follows(c, Op.Merge(from, to), t)
    ensures if from == to || from !in c.people || to !in c.people then t == c
            else
              && |t.identities| == |c.identities| && from !in t.people
              && forall k | 0 <= k < |c.identities| && c.identities[k].person in {from, to} ::
                   t.identities[k].person == to && t.identities[k].pinned
  {
    hide Sound, MergePeople;
    MergeRefused(c, from, to);
    if from != to && from in c.people && to in c.people {
      MergedIs(c, from, to);
    }
  }

  /** And a split of an identity there is has given it a person of its own. */
  lemma SplitStep(c: Contacts, i: nat, t: Contacts)
    requires Sound(c) && Follows(c, Op.Split(i), t)
    ensures if i >= |c.identities| then t == c
            else
              && |t.identities| == |c.identities| && c.nextPerson !in c.people && c.nextPerson in t.people
              && t.identities[i] == c.identities[i].(person := c.nextPerson, pinned := true)
              && forall k | 0 <= k < |c.identities| && k != i :: t.identities[k] == c.identities[k]
  {
    hide DisplayName;
  }

  /** An edit: name, tags and notes as given, else as they were; the phone and everybody else stay. */
  lemma EditIs(c: Contacts, person: nat, name: Option<string>, tags: Option<set<string>>, notes: Option<string>)
    ensures var t := UpdatePerson(c, person, name, tags, notes);
            && t.identities == c.identities && t.people.Keys == c.people.Keys && t.nextPerson == c.nextPerson
            && (forall p | p in c.people && p != person :: t.people[p] == c.people[p])
            && (person in c.people ==>
                  var now, was := t.people[person], c.people[person];
                  && now.name == (if name.Some? then name else was.name)
                  && now.tags == (if tags.Some? then tags.value else was.tags)
                  && now.notes == (if notes.Some? then notes else was.notes) && now.phone == was.phone)
  {
  }

  /** The people before a merge: those known, and a new one for a new identity, called after the row. */
  lemma PeopleRecorded(c: Contacts, platform: Platform, row: UserRow)
    requires Sound(c)
    ensures var r, i := Recorded(c, platform, row), IdOf(c, platform, row);
            && i < |r.identities|
            && (forall p | p in c.people :: p in r.people && r.people[p] == c.people[p])
            && (i < |c.identities| ==> r.people.Keys == c.people.Keys && r.nextPerson == c.nextPerson)
            && (i == |c.identities| ==>
                  && r.people.Keys == c.people.Keys + {c.nextPerson} && r.nextPerson == c.nextPerson + 1
                  && var p := r.people[c.nextPerson];
                     IsNameOf(p.name, row.firstName, row.lastName, row.username)
                     && p.phone == row.phone && p.tags == {} && p.notes.None?)
  {
  }

  /** A person of an upsert: as recorded, with the row's phone if it is the row's person and had none. */
  predicate Filled(now: Person, was: Person, rows: bool, row: UserRow) {
    now == if rows && was.phone.None? then was.(phone := row.phone) else was
  }

  /** p took over the person whose identity k came to it. */
  ghost predicate TookOver(r: Contacts, t: Contacts, p: nat, k: nat, rows: nat, row: UserRow) {
    && k < |r.identities| == |t.identities| && t.identities[k].person == p != r.identities[k].person
    && p in r.people && p in t.people && r.identities[k].person in r.people
    && exists own, other ::
         && Takeover(t.people[p], own, other) && Filled(own, r.people[p], p == rows, row)
         && Filled(other, r.people[r.identities[k].person], r.identities[k].person == rows, row)
  }

  /**
   The people after an upsert: only the row's person gets a phone it did not have; the older of
   two people that meet takes the other over; everybody else is as recorded. A person goes
   only if its last identity was moved.
   */
  lemma UpsertedPeople(c: Contacts, platform: Platform, row: UserRow, t: Contacts)
    requires Sound(c) && row.phone != Some("") && Upserts(c, platform, row, t)
    ensures var r, i := Recorded(c, platform, row), IdOf(c, platform, row);
            && i < |r.identities| == |t.identities|
            && (forall p | p in r.people && p !in t.people ::
                  forall k | 0 <= k < |t.identities| :: t.identities[k].person != p)
            && (forall p | p in t.people ::
                  p in r.people && (Filled(t.people[p], r.people[p], p == r.identities[i].person, row)
                                    || exists k: nat :: TookOver(r, t, p, k, r.identities[i].person, row)))
  {
    hide NonEmpty, DisplayName, Updated, Joined, Sound, AllTags, Recorded, IdOf, WithPhone, AutoMerged, Twin, TookOver;
    RecordedKeeps(c, platform, row);
    var r, i := Recorded(c, platform, row), IdOf(c, platform, row);
    if row.phone.Some? {
      var f := WithPhone(r, i, row.phone.value);
      PhoneFilled(r, i, row);
      PhoneKeeps(r, i, row.phone.value);
      if !f.identities[i].pinned && exists j: nat :: Twin(f, i, j) {
        var j: nat :| Chosen(f, i, j) && t == AutoMerged(f, i, j);
        Merged(r, i, row, f, j);
      }
    }
  }

  lemma PhoneFilled(r: Contacts, i: nat, row: UserRow)
    requires i < |r.identities| && row.phone.Some?
    ensures var f := WithPhone(r, i, row.phone.value);
            && f.identities == r.identities && f.people.Keys == r.people.Keys
            && forall p | p in r.people :: Filled(f.people[p], r.people[p], p == r.identities[i].person, row)
  {
  }

  lemma Merged(r: Contacts, i: nat, row: UserRow, f: Contacts, j: nat)
    requires Sound(f) && Twin(f, i, j) && !f.identities[i].pinned
    requires f.identities == r.identities && f.people.Keys == r.people.Keys
    requires forall p | p in r.people :: Filled(f.people[p], r.people[p], p == r.identities[i].person, row)
    ensures var t, rows := AutoMerged(f, i, j), r.identities[i].person;
            && |t.identities| == |r.identities|
            && (forall p | p in r.people && p !in t.people ::
                  forall k | 0 <= k < |t.identities| :: t.identities[k].person != p)
            && (forall p | p in t.people ::
                  p in r.people && (Filled(t.people[p], r.people[p], p == rows, row)
                                    || exists k: nat :: TookOver(r, t, p, k, rows, row)))
  {
    hide Sound, AutoMerged, Takeover, Filled;
    AutoMergedPeople(f, i, j);
    var t := AutoMerged(f, i, j);
    var a, b := f.identities[i].person, f.identities[j].person;
    var target, source, moved := Smaller(a, b), Larger(a, b), if a > b then i else j;
    assert Takeover(t.people[target], f.people[target], f.people[source]);
    assert TookOver(r, t, target, moved, r.identities[i].person, row);
  }

  lemma AutoMergedPeople(c: Contacts, i: nat, j: nat)
    requires Sound(c) && Twin(c, i, j) && !c.identities[i].pinned
    ensures var t := AutoMerged(c, i, j);
            var a, b := c.identities[i].person, c.identities[j].person;
            var target, source, moved := Smaller(a, b), Larger(a, b), if a > b then i else j;
            && target in c.people && source in c.people && target in t.people
            && |t.identities| == |c.identities| && t.identities[moved].person == target != source
            && c.identities[moved].person == source
            && Takeover(t.people[target], c.people[target], c.people[source])
            && (forall p | p in t.people && p != target :: p in c.people && t.people[p] == c.people[p])
            && (forall p | p in c.people && p !in t.people :: p == source && !Used(t.identities, source))
  {
    hide Joined, AllTags;
    AutoMergeKeeps(c, i, j);
    var a, b := c.identities[i].person, c.identities[j].person;
    JoinedIs(c.people[Smaller(a, b)], c.people[Larger(a, b)]);
  }
}
