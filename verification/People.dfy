/**
 Contacts: people and their identities on the platforms. Upserts with automatic merges by
 phone, and merges and splits by hand.
 */
module People {
  import opened Wrappers

  datatype Platform = Telegram | Max

  /** What a platform tells about a user; the phone is normalised, so it is not empty. */
  datatype UserRow = UserRow(externalId: int, username: Option<string>, firstName: Option<string>,
                             lastName: Option<string>, phone: Option<string>, isBot: bool)

  datatype Identity = Identity(person: nat, platform: Platform, externalId: int, username: Option<string>,
                               firstName: Option<string>, lastName: Option<string>, phone: Option<string>,
                               isBot: bool, pinned: bool)

  datatype Person = Person(name: Option<string>, phone: Option<string>, tags: set<string>, notes: Option<string>)

  /** Identities are never deleted: an identity's id is its place. */
  datatype Contacts = Contacts(identities: seq<Identity>, people: map<nat, Person>, nextPerson: nat)

  datatype Problem = SamePerson | PersonNotFound(person: nat) | IdentityNotFound(identity: nat)

  function NonEmpty(o: Option<string>): Option<string> {
    if o == Some("") then None else o
  }

  /** First and last name, or the username. */
  function DisplayName(first: Option<string>, last: Option<string>, username: Option<string>): Option<string> {
    var f, l := NonEmpty(first), NonEmpty(last);
    if f.Some? && l.Some? then Some(f.value + " " + l.value)
    else Coalesce(f, Coalesce(l, NonEmpty(username)))
  }

  // ---------------------------------------------------------------------------
  // Upsert
  // ---------------------------------------------------------------------------

  predicate HasKey(x: Identity, platform: Platform, externalId: int) {
    x.platform == platform && x.externalId == externalId
  }

  function Lookup(identities: seq<Identity>, platform: Platform, externalId: int): (i: Option<nat>)
    ensures i.Some? ==> i.value < |identities| && HasKey(identities[i.value], platform, externalId)
    ensures i.None? ==> forall k | 0 <= k < |identities| :: !HasKey(identities[k], platform, externalId)
  {
    if identities == [] then None
    else if HasKey(identities[|identities| - 1], platform, externalId) then Some(|identities| - 1)
    else Lookup(identities[..|identities| - 1], platform, externalId)
  }

  /** Values given overwrite, empty ones keep what is stored. */
  function Updated(x: Identity, row: UserRow): Identity {
    x.(username := Coalesce(NonEmpty(row.username), x.username),
       firstName := Coalesce(NonEmpty(row.firstName), x.firstName),
       lastName := Coalesce(NonEmpty(row.lastName), x.lastName),
       phone := Coalesce(row.phone, x.phone), isBot := row.isBot)
  }

  /** The identity as it is known now: updated, or new with a new person. */
  function Recorded(c: Contacts, platform: Platform, row: UserRow): Contacts {
    var i := Lookup(c.identities, platform, row.externalId);
    if i.Some? then c.(identities := c.identities[i.value := Updated(c.identities[i.value], row)])
    else
      var x := Identity(c.nextPerson, platform, row.externalId, NonEmpty(row.username), NonEmpty(row.firstName),
                        NonEmpty(row.lastName), row.phone, row.isBot, false);
      var p := Person(DisplayName(row.firstName, row.lastName, row.username), row.phone, {}, None);
      Contacts(c.identities + [x], c.people[c.nextPerson := p], c.nextPerson + 1)
  }

  /** The identity's id after it was recorded. */
  function IdOf(c: Contacts, platform: Platform, row: UserRow): nat {
    var i := Lookup(c.identities, platform, row.externalId);
    if i.Some? then i.value else |c.identities|
  }

  /** A phone that appears later fills the person's primary phone. */
  function WithPhone(c: Contacts, i: nat, phone: string): Contacts
    requires i < |c.identities|
  {
    var p := c.identities[i].person;
    if p in c.people && c.people[p].phone.None? then
      c.(people := c.people[p := c.people[p].(phone := Some(phone))])
    else c
  }

  /** An identity of the other platform with the same phone, of another person and not pinned. */
  predicate Twin(c: Contacts, i: nat, j: nat) {
    && i < |c.identities| && j < |c.identities|
    && var me, other := c.identities[i], c.identities[j];
       me.phone.Some? && other.phone == me.phone && other.platform != me.platform && other.person != me.person
       && !other.pinned
  }

  /** The twin of the oldest person; of several, any. */
  ghost predicate Chosen(c: Contacts, i: nat, j: nat) {
    Twin(c, i, j) && forall k: nat | Twin(c, i, k) :: c.identities[j].person <= c.identities[k].person
  }

  predicate Used(identities: seq<Identity>, person: nat) {
    exists i :: 0 <= i < |identities| && identities[i].person == person
  }

  function Notes(t: Option<string>, s: Option<string>): Option<string> {
    if s.None? || s.value == "" then t
    else if t.None? || t.value == "" then s
    else Some(t.value + "\n" + s.value)
  }

  /** No note is lost: the target's come first, the source's last. */
  lemma NotesKept(t: Option<string>, s: Option<string>)
    ensures t.Some? && t.value != "" ==> Notes(t, s).Some? && t.value <= Notes(t, s).value
    ensures s.Some? && s.value != "" ==>
              var n := Notes(t, s);
              n.Some? && |s.value| <= |n.value| && n.value[|n.value| - |s.value|..] == s.value
    ensures NonEmpty(Notes(t, s)).None? <==> NonEmpty(t).None? && NonEmpty(s).None?
  {
  }

  function Joined(t: Person, s: Person): Person {
    Person(Coalesce(t.name, s.name), Coalesce(t.phone, s.phone), t.tags + s.tags, Notes(t.notes, s.notes))
  }

  /** The target takes the source's data; a source without identities goes. */
  function Absorbed(c: Contacts, target: nat, source: nat): Contacts {
    var people := if target in c.people && source in c.people
                  then c.people[target := Joined(c.people[target], c.people[source])] else c.people;
    c.(people := if Used(c.identities, source) then people else people - {source})
  }

  function Smaller(a: nat, b: nat): nat {
    if a < b then a else b
  }

  function Larger(a: nat, b: nat): nat {
    if a < b then b else a
  }

  /** The identity on the younger person moves to the older one. */
  function AutoMerged(c: Contacts, i: nat, j: nat): Contacts
    requires Twin(c, i, j)
  {
    var a, b := c.identities[i].person, c.identities[j].person;
    var target, source := Smaller(a, b), Larger(a, b);
    var moved := if a == source then i else j;
    Absorbed(c.(identities := c.identities[moved := c.identities[moved].(person := target)]), target, source)
  }

  /** upsert_identity takes c to t. */
  ghost predicate Upserts(c: Contacts, platform: Platform, row: UserRow, t: Contacts) {
    var r, i := Recorded(c, platform, row), IdOf(c, platform, row);
    if row.phone.None? then t == r
    else
      var f := WithPhone(r, i, row.phone.value);
      if f.identities[i].pinned || (forall j: nat :: !Twin(f, i, j)) then t == f
      else exists j: nat :: Chosen(f, i, j) && t == AutoMerged(f, i, j)
  }

  // ---------------------------------------------------------------------------
  // By hand
  // ---------------------------------------------------------------------------

  /** Every identity of either person goes to `to` and is pinned. */
  function Gathered(identities: seq<Identity>, from: nat, to: nat): (r: seq<Identity>)
    ensures |r| == |identities|
    ensures forall i | 0 <= i < |r| ::
              r[i] == if identities[i].person == from || identities[i].person == to
                      then identities[i].(person := to, pinned := true) else identities[i]
  {
    seq(|identities|, i requires 0 <= i < |identities| =>
      if identities[i].person == from || identities[i].person == to
      then identities[i].(person := to, pinned := true) else identities[i])
  }

  function MergePeople(c: Contacts, from: nat, to: nat): Result<Contacts, Problem> {
    if from == to then Err(SamePerson)
    else if from !in c.people then Err(PersonNotFound(from))
    else if to !in c.people then Err(PersonNotFound(to))
    else Ok(Absorbed(c.(identities := Gathered(c.identities, from, to)), to, from))
  }

  /** The identity gets a new person of its own. */
  function SplitIdentity(c: Contacts, i: nat): Result<Contacts, Problem> {
    if i >= |c.identities| then Err(IdentityNotFound(i))
    else
      var x := c.identities[i];
      var p := Person(DisplayName(x.firstName, x.lastName, x.username), x.phone, {}, None);
      var identities := c.identities[i := x.(person := c.nextPerson, pinned := true)];
      var people := c.people[c.nextPerson := p];
      Ok(Contacts(identities, if Used(identities, x.person) then people else people - {x.person}, c.nextPerson + 1))
  }

  /** update_person: the owner edits name, tags and notes. */
  function UpdatePerson(c: Contacts, person: nat, name: Option<string>, tags: Option<set<string>>,
                        notes: Option<string>): Contacts
  {
    if person !in c.people then c
    else
      var p := c.people[person];
      c.(people := c.people[person := Person(Coalesce(name, p.name), p.phone,
                                             if tags.Some? then tags.value else p.tags, Coalesce(notes, p.notes))])
  }

  // ---------------------------------------------------------------------------
  // The invariant
  // ---------------------------------------------------------------------------

  /** Every identity has a person, and every person an identity. */
  ghost predicate Linked(c: Contacts) {
    && (forall i | 0 <= i < |c.identities| :: c.identities[i].person in c.people)
    && (forall p | p in c.people :: Used(c.identities, p))
  }

  predicate SameKey(a: Identity, b: Identity) {
    HasKey(a, b.platform, b.externalId)
  }

  ghost predicate KeysUnique(identities: seq<Identity>) {
    forall i, j | 0 <= i < j < |identities| :: !SameKey(identities[i], identities[j])
  }

  ghost predicate PhonesReal(identities: seq<Identity>) {
    forall i | 0 <= i < |identities| :: identities[i].phone != Some("")
  }

  ghost predicate Sound(c: Contacts) {
    && Linked(c) && KeysUnique(c.identities) && PhonesReal(c.identities)
    && forall p | p in c.people :: p < c.nextPerson
  }

  /** b is a with other persons and pins. */
  ghost predicate SameProfiles(a: seq<Identity>, b: seq<Identity>) {
    |a| == |b| && forall i | 0 <= i < |a| :: b[i] == a[i].(person := b[i].person, pinned := b[i].pinned)
  }

  lemma ProfilesKeep(a: seq<Identity>, b: seq<Identity>)
    requires SameProfiles(a, b) && KeysUnique(a) && PhonesReal(a)
    ensures KeysUnique(b) && PhonesReal(b)
  {
    forall i, j | 0 <= i < j < |b|
      ensures !SameKey(b[i], b[j])
    {
      assert !SameKey(a[i], a[j]);
    }
  }

  function AllTags(people: map<nat, Person>): set<string> {
    set p, t | p in people && t in people[p].tags :: t
  }

  /** What recording an identity keeps. */
  ghost predicate RecordKeeps(c: Contacts, r: Contacts) {
    && Sound(r) && AllTags(r.people) == AllTags(c.people) && |c.identities| <= |r.identities|
    && forall k | 0 <= k < |c.identities| :: SamePlace(c.identities[k], r.identities[k])
  }

  predicate SamePlace(a: Identity, b: Identity) {
    a.person == b.person && a.pinned == b.pinned
  }

  lemma UpdateKeeps(c: Contacts, i: nat, row: UserRow)
    requires Sound(c) && i < |c.identities| && row.phone != Some("")
    ensures RecordKeeps(c, c.(identities := c.identities[i := Updated(c.identities[i], row)]))
  {
    hide AllTags, NonEmpty, Updated, KeysUnique, HasKey, Linked;
    var x := Updated(c.identities[i], row);
    UpdatedIs(c.identities[i], row);
    ReplaceKeepsKeys(c.identities, i, x);
    ReplaceKeepsLinks(c, i, x);
  }

  lemma UpdatedIs(x: Identity, row: UserRow)
    requires x.phone != Some("") && row.phone != Some("")
    ensures var y := Updated(x, row);
            && SamePlace(x, y) && y.phone != Some("") && y.platform == x.platform && y.externalId == x.externalId
  {
    hide NonEmpty;
  }

  lemma ReplaceKeepsKeys(identities: seq<Identity>, i: nat, x: Identity)
    requires KeysUnique(identities) && i < |identities|
    requires x.platform == identities[i].platform && x.externalId == identities[i].externalId
    ensures KeysUnique(identities[i := x])
  {
    var next := identities[i := x];
    forall a, b | 0 <= a < b < |next|
      ensures !SameKey(next[a], next[b])
    {
      assert !SameKey(identities[a], identities[b]);
    }
  }

  lemma ReplaceKeepsLinks(c: Contacts, i: nat, x: Identity)
    requires Linked(c) && i < |c.identities| && x.person == c.identities[i].person
    ensures Linked(c.(identities := c.identities[i := x]))
  {
    forall p | p in c.people
      ensures Used(c.identities[i := x], p)
    {
      var k :| 0 <= k < |c.identities| && c.identities[k].person == p;
      assert c.identities[i := x][k].person == p;
    }
  }

  lemma AddKeeps(c: Contacts, x: Identity, p: Person)
    requires Sound(c) && x.person == c.nextPerson && x.phone != Some("") && p.tags == {}
    requires forall k | 0 <= k < |c.identities| :: !HasKey(c.identities[k], x.platform, x.externalId)
    ensures RecordKeeps(c, Contacts(c.identities + [x], c.people[c.nextPerson := p], c.nextPerson + 1))
  {
    hide AllTags, HasKey;
    var r := Contacts(c.identities + [x], c.people[c.nextPerson := p], c.nextPerson + 1);
    forall q | q in r.people
      ensures Used(r.identities, q)
    {
      if q == c.nextPerson {
        assert r.identities[|c.identities|].person == q;
      } else {
        var k :| 0 <= k < |c.identities| && c.identities[k].person == q;
        assert r.identities[k].person == q;
      }
    }
    forall a, b | 0 <= a < b < |r.identities|
      ensures !SameKey(r.identities[a], r.identities[b])
    {
      if b < |c.identities| {
        assert !SameKey(c.identities[a], c.identities[b]);
      }
    }
    assert c.nextPerson !in c.people;
    SameTags(c.people, r.people, c.nextPerson);
  }

  /** Recording finds or makes the identity and moves none. */
  lemma RecordedKeeps(c: Contacts, platform: Platform, row: UserRow)
    requires Sound(c) && row.phone != Some("")
    ensures var r, i := Recorded(c, platform, row), IdOf(c, platform, row);
            && RecordKeeps(c, r) && i < |r.identities| && HasKey(r.identities[i], platform, row.externalId)
            && (row.phone.Some? ==> r.identities[i].phone == row.phone)
  {
    hide DisplayName, NonEmpty, RecordKeeps, Sound;
    var i := Lookup(c.identities, platform, row.externalId);
    if i.Some? {
      UpdateKeeps(c, i.value, row);
    } else {
      var r := Recorded(c, platform, row);
      AddKeeps(c, r.identities[|c.identities|], r.people[c.nextPerson]);
    }
  }

  /** A person without tags adds none. */
  lemma SameTags(people: map<nat, Person>, more: map<nat, Person>, p: nat)
    requires p !in people && more.Keys == people.Keys + {p} && more[p].tags == {}
    requires forall q | q in people :: more[q].tags == people[q].tags
    ensures AllTags(more) == AllTags(people)
  {
  }

  lemma PhoneKeeps(c: Contacts, i: nat, phone: string)
    requires Sound(c) && i < |c.identities|
    ensures var t := WithPhone(c, i, phone);
            && Sound(t) && t.identities == c.identities
            && t.people.Keys == c.people.Keys && AllTags(t.people) == AllTags(c.people)
  {
    var t := WithPhone(c, i, phone);
    assert forall p | p in c.people :: t.people[p].tags == c.people[p].tags;
  }

  /** Absorbing leaves every identity with a person, and the target with the tags of both. */
  lemma AbsorbedKeeps(c: Contacts, target: nat, source: nat)
    requires target in c.people && source in c.people && target != source
    requires forall i | 0 <= i < |c.identities| :: c.identities[i].person in c.people
    requires forall p | p in c.people && p != source :: Used(c.identities, p)
    requires KeysUnique(c.identities) && PhonesReal(c.identities) && forall p | p in c.people :: p < c.nextPerson
    ensures var t := Absorbed(c, target, source);
            && Sound(t) && t.identities == c.identities && t.nextPerson == c.nextPerson
            && target in t.people && t.people[target].tags == c.people[target].tags + c.people[source].tags
            && (source in t.people <==> Used(c.identities, source))
            && (forall p | p in c.people && p != target && p != source :: p in t.people && t.people[p] == c.people[p])
            && AllTags(t.people) == AllTags(c.people)
  {
    var t := Absorbed(c, target, source);
    assert AllTags(t.people) == AllTags(c.people) by { AbsorbedTags(c, target, source); }
  }

  lemma AbsorbedTags(c: Contacts, target: nat, source: nat)
    requires target in c.people && source in c.people && target != source
    ensures AllTags(Absorbed(c, target, source).people) == AllTags(c.people)
  {
    hide Used, Notes;
    var t := Absorbed(c, target, source);
    forall tag | tag in AllTags(c.people)
      ensures tag in AllTags(t.people)
    {
      var p :| p in c.people && tag in c.people[p].tags;
      if p == source {
        assert tag in t.people[target].tags;
      } else {
        assert p in t.people && tag in t.people[p].tags;
      }
    }
  }

  /**
   An automatic merge keeps the links; it moves exactly one identity, not a pinned one, to a
   strictly older person, where the twins meet; no tag is lost or invented.
   */
  lemma AutoMergeKeeps(c: Contacts, i: nat, j: nat)
    requires Sound(c) && Twin(c, i, j) && !c.identities[i].pinned
    ensures var t := AutoMerged(c, i, j);
            var a, b := c.identities[i].person, c.identities[j].person;
            var target, source, moved := Smaller(a, b), Larger(a, b), if a > b then i else j;
            && Sound(t) && |t.identities| == |c.identities|
            && !c.identities[moved].pinned && t.identities[moved].person == target < c.identities[moved].person
            && (forall k | 0 <= k < |c.identities| && k != moved :: t.identities[k] == c.identities[k])
            && t.identities[i].person == t.identities[j].person == target
            && target in t.people && t.people[target].tags == c.people[target].tags + c.people[source].tags
            && (source in t.people ==> t.people[source] == c.people[source])
            && (forall p | p in c.people && p != target && p != source :: p in t.people && t.people[p] == c.people[p])
            && AllTags(t.people) == AllTags(c.people)
  {
    hide Absorbed, AllTags, HasKey;
    var a, b := c.identities[i].person, c.identities[j].person;
    var target, source, moved := Smaller(a, b), Larger(a, b), if a > b then i else j;
    var m := c.(identities := c.identities[moved := c.identities[moved].(person := target)]);
    MovedLinks(c, moved, target);
    AbsorbedKeeps(m, target, source);
    SourceKeeps(m, target, source);
  }

  /** After one identity moved, only its old person may be without any. */
  lemma MovedLinks(c: Contacts, moved: nat, target: nat)
    requires Sound(c) && moved < |c.identities| && target in c.people
    ensures var identities := c.identities[moved := c.identities[moved].(person := target)];
            && KeysUnique(identities) && PhonesReal(identities)
            && (forall i | 0 <= i < |identities| :: identities[i].person in c.people)
            && (forall p | p in c.people && p != c.identities[moved].person :: Used(identities, p))
            && c.identities[moved].person in c.people
  {
    hide HasKey;
    var identities := c.identities[moved := c.identities[moved].(person := target)];
    assert SameProfiles(c.identities, identities);
    ProfilesKeep(c.identities, identities);
    forall p | p in c.people && p != c.identities[moved].person
      ensures Used(identities, p)
    {
      var k :| 0 <= k < |c.identities| && c.identities[k].person == p;
      assert identities[k].person == p;
    }
  }

  lemma SourceKeeps(c: Contacts, target: nat, source: nat)
    requires target != source
    ensures var t := Absorbed(c, target, source);
            source in t.people && source in c.people ==> t.people[source] == c.people[source]
  {
  }

  /** A merge by hand: the source is gone, the target has every identity, pinned, and every tag. */
  lemma MergeKeeps(c: Contacts, from: nat, to: nat)
    requires Sound(c) && MergePeople(c, from, to).Ok?
    ensures var t := MergePeople(c, from, to).value;
            && Sound(t) && from !in t.people && to in t.people
            && t.identities == Gathered(c.identities, from, to)
            && t.people[to].tags == c.people[to].tags + c.people[from].tags
            && (forall p | p in c.people && p != from && p != to :: p in t.people && t.people[p] == c.people[p])
            && AllTags(t.people) == AllTags(c.people)
  {
    hide Absorbed, AllTags;
    var m := c.(identities := Gathered(c.identities, from, to));
    assert SameProfiles(c.identities, m.identities);
    ProfilesKeep(c.identities, m.identities);
    forall p | p in c.people && p != from
      ensures Used(m.identities, p)
    {
      var k :| 0 <= k < |c.identities| && c.identities[k].person == p;
      assert m.identities[k].person == p;
    }
    assert !Used(m.identities, from);
    AbsorbedKeeps(m, to, from);
  }

  /** A merge is done once: the source is gone, so the same merge again, or back, finds no person. */
  lemma MergeIsOnce(c: Contacts, from: nat, to: nat)
    requires Sound(c) && MergePeople(c, from, to).Ok?
    ensures var t := MergePeople(c, from, to).value;
            && MergePeople(t, from, to) == Err(PersonNotFound(from))
            && MergePeople(t, to, from) == Err(PersonNotFound(from))
            && forall i | 0 <= i < |t.identities| :: t.identities[i].person != from
  {
    hide Absorbed, AllTags, Sound;
    MergeKeeps(c, from, to);
    assert Linked(MergePeople(c, from, to).value) by { SoundLinks(MergePeople(c, from, to).value); }
  }

  lemma SoundLinks(c: Contacts)
    requires Sound(c)
    ensures Linked(c)
  {
  }

  /**
   A split: a new, pinned person for one identity. The old person goes only if this was its
   last identity; otherwise no tag is lost.
   */
  lemma SplitKeeps(c: Contacts, i: nat)
    requires Sound(c) && i < |c.identities|
    ensures SplitIdentity(c, i).Ok?
    ensures var t := SplitIdentity(c, i).value;
            var was, own := c.identities[i].person, c.nextPerson;
            && Sound(t) && t.identities == c.identities[i := c.identities[i].(person := own, pinned := true)]
            && own !in c.people && own in t.people && t.people[own].tags == {}
            && (was in t.people <==> exists k :: 0 <= k < |c.identities| && k != i && c.identities[k].person == was)
            && (forall p | p in c.people && p != was :: p in t.people && t.people[p] == c.people[p])
            && (was in t.people ==> t.people[was] == c.people[was] && AllTags(t.people) == AllTags(c.people))
  {
    hide DisplayName, AllTags, Sound;
    var x, own := c.identities[i], c.nextPerson;
    var identities := c.identities[i := x.(person := own, pinned := true)];
    SplitLinks(c, i, identities);
    var t := SplitIdentity(c, i).value;
    var p := t.people[own];
    var people := c.people[own := p];
    assert t == Contacts(identities, if Used(identities, x.person) then people else people - {x.person}, own + 1);
    SplitSound(c, x.person, identities, p);
  }

  /** Who is still used after one identity went to a person of its own. */
  lemma SplitLinks(c: Contacts, i: nat, identities: seq<Identity>)
    requires Sound(c) && i < |c.identities|
    requires identities == c.identities[i := c.identities[i].(person := c.nextPerson, pinned := true)]
    ensures var was := c.identities[i].person;
            && SameProfiles(c.identities, identities) && Used(identities, c.nextPerson)
            && was in c.people && c.nextPerson !in c.people
            && (forall k | 0 <= k < |identities| :: identities[k].person == c.nextPerson || identities[k].person in c.people)
            && (forall p | p in c.people && p != was :: Used(identities, p))
            && (Used(identities, was) <==> exists k :: 0 <= k < |c.identities| && k != i && c.identities[k].person == was)
  {
    var was := c.identities[i].person;
    assert identities[i].person == c.nextPerson;
    forall p | p in c.people && p != was
      ensures Used(identities, p)
    {
      var k :| 0 <= k < |c.identities| && c.identities[k].person == p;
      assert identities[k].person == p;
    }
    forall k | 0 <= k < |c.identities| && k != i && c.identities[k].person == was
      ensures Used(identities, was)
    {
      assert identities[k].person == was;
    }
  }

  lemma SplitSound(c: Contacts, was: nat, identities: seq<Identity>, p: Person)
    requires Sound(c) && SameProfiles(c.identities, identities) && Used(identities, c.nextPerson)
    requires was in c.people && c.nextPerson !in c.people && p.tags == {}
    requires forall k | 0 <= k < |identities| :: identities[k].person == c.nextPerson || identities[k].person in c.people
    requires forall q | q in c.people && q != was :: Used(identities, q)
    ensures var people := c.people[c.nextPerson := p];
            var t := Contacts(identities, if Used(identities, was) then people else people - {was}, c.nextPerson + 1);
            Sound(t) && (was in t.people ==> AllTags(t.people) == AllTags(c.people))
  {
    hide AllTags, KeysUnique, PhonesReal, SameProfiles;
    ProfilesKeep(c.identities, identities);
    var people := c.people[c.nextPerson := p];
    if Used(identities, was) {
      SameTags(c.people, people, c.nextPerson);
      assert Linked(Contacts(identities, people, c.nextPerson + 1));
    } else {
      assert forall k | 0 <= k < |identities| :: identities[k].person in people - {was};
      assert Linked(Contacts(identities, people - {was}, c.nextPerson + 1));
    }
  }

  // ---------------------------------------------------------------------------
  // Upserts and runs
  // ---------------------------------------------------------------------------

  /** Where the identities are after an upsert: pinned ones stay, others move only to older people. */
  ghost predicate PlacesKept(a: seq<Identity>, b: seq<Identity>) {
    |a| <= |b| && forall k | 0 <= k < |a| :: Drifts(a[k], b[k])
  }

  predicate Drifts(a: Identity, b: Identity) {
    b.pinned == a.pinned && b.person <= a.person && (a.pinned ==> b.person == a.person)
  }

  lemma AutoMergePlaces(c: Contacts, i: nat, j: nat)
    requires Sound(c) && Twin(c, i, j) && !c.identities[i].pinned
    ensures Sound(AutoMerged(c, i, j)) && AllTags(AutoMerged(c, i, j).people) == AllTags(c.people)
    ensures PlacesKept(c.identities, AutoMerged(c, i, j).identities)
  {
    hide AutoMerged, AllTags, Sound;
    AutoMergeKeeps(c, i, j);
    assert AutoMerged(c, i, j).identities[if c.identities[i].person > c.identities[j].person then i else j].pinned == false
      by { AutoMergePins(c, i, j); }
  }

  lemma AutoMergePins(c: Contacts, i: nat, j: nat)
    requires Twin(c, i, j)
    ensures var moved := if c.identities[i].person > c.identities[j].person then i else j;
            |AutoMerged(c, i, j).identities| == |c.identities|
            && AutoMerged(c, i, j).identities[moved].pinned == c.identities[moved].pinned
  {
    hide Joined, Used;
  }

  /** Every upsert keeps the links and the tags; pinned identities stay, others only go to older people. */
  lemma UpsertKeeps(c: Contacts, platform: Platform, row: UserRow, t: Contacts)
    requires Sound(c) && row.phone != Some("") && Upserts(c, platform, row, t)
    ensures Sound(t) && AllTags(t.people) == AllTags(c.people) && PlacesKept(c.identities, t.identities)
  {
    hide Sound, AllTags, Recorded, IdOf, WithPhone, AutoMerged, Twin;
    RecordedKeeps(c, platform, row);
    var r, i := Recorded(c, platform, row), IdOf(c, platform, row);
    assert PlacesKept(c.identities, r.identities);
    if row.phone.Some? {
      var f := WithPhone(r, i, row.phone.value);
      PhoneKeeps(r, i, row.phone.value);
      if !f.identities[i].pinned && exists j: nat :: Twin(f, i, j) {
        var j: nat :| Chosen(f, i, j) && t == AutoMerged(f, i, j);
        AutoMergePlaces(f, i, j);
        assert forall k | 0 <= k < |c.identities| :: SamePlace(c.identities[k], f.identities[k]);
      }
    }
  }

  datatype Op =
    | Upsert(platform: Platform, row: UserRow)
    | Merge(from: nat, to: nat)
    | Split(identity: nat)
    | Edit(person: nat, name: Option<string>, tags: Option<set<string>>, notes: Option<string>)

  /** A failed call changes nothing. */
  ghost predicate Follows(c: Contacts, op: Op, t: Contacts) {
    match op
    case Upsert(platform, row) => row.phone != Some("") && Upserts(c, platform, row, t)
    case Merge(from, to) =>
      var r := MergePeople(c, from, to);
      t == if r.Ok? then r.value else c
    case Split(i) =>
      var r := SplitIdentity(c, i);
      t == if r.Ok? then r.value else c
    case Edit(person, name, tags, notes) => t == UpdatePerson(c, person, name, tags, notes)
  }

  /** The step may lose tags: an edit of them, or a split of a person's only identity. */
  ghost predicate MayLoseTags(c: Contacts, op: Op) {
    || (op.Edit? && op.tags.Some?)
    || (op.Split? && op.identity < |c.identities|
        && forall k | 0 <= k < |c.identities| && k != op.identity ::
             c.identities[k].person != c.identities[op.identity].person)
  }

  /** No identity is ever lost, and a pin stays. */
  ghost predicate PinsStay(a: seq<Identity>, b: seq<Identity>) {
    |a| <= |b| && forall k | 0 <= k < |a| && a[k].pinned :: b[k].pinned
  }

  lemma EditKeeps(c: Contacts, person: nat, name: Option<string>, tags: Option<set<string>>, notes: Option<string>)
    requires Sound(c)
    ensures var t := UpdatePerson(c, person, name, tags, notes);
            Sound(t) && t.identities == c.identities && (tags.None? ==> AllTags(t.people) == AllTags(c.people))
  {
    var t := UpdatePerson(c, person, name, tags, notes);
    if tags.None? {
      assert forall p | p in c.people :: t.people[p].tags == c.people[p].tags;
    }
  }

  lemma StepKeeps(c: Contacts, op: Op, t: Contacts)
    requires Sound(c) && Follows(c, op, t)
    ensures Sound(t) && PinsStay(c.identities, t.identities)
    ensures !MayLoseTags(c, op) ==> AllTags(t.people) == AllTags(c.people)
  {
    hide Sound, AllTags, Upserts, MergePeople, SplitIdentity, UpdatePerson;
    match op
    case Upsert(platform, row) => UpsertKeeps(c, platform, row, t);
    case Merge(from, to) =>
      if MergePeople(c, from, to).Ok? {
        MergeKeeps(c, from, to);
      }
    case Split(i) =>
      if i < |c.identities| {
        SplitKeeps(c, i);
      } else {
        SplitFails(c, i);
      }
    case Edit(person, name, tags, notes) => EditKeeps(c, person, name, tags, notes);
  }

  lemma SplitFails(c: Contacts, i: nat)
    ensures SplitIdentity(c, i).Err? <==> i >= |c.identities|
  {
  }

  ghost predicate IsRun(trace: seq<Contacts>, ops: seq<Op>) {
    && |trace| == |ops| + 1 && Sound(trace[0])
    && forall k | 0 <= k < |ops| :: Follows(trace[k], ops[k], trace[k + 1])
  }

  ghost predicate TagsSafe(trace: seq<Contacts>, ops: seq<Op>)
    requires |trace| == |ops| + 1
  {
    forall k | 0 <= k < |ops| :: !MayLoseTags(trace[k], ops[k])
  }

  /**
   After any sequence of upserts with their automatic merges, merges and splits by hand, and
   edits: every identity has an existing person, every person an identity, keys are unique,
   and pins stay. Tags are neither lost nor invented, unless they are edited or a person's
   only identity is split off.
   */
  lemma {:induction false} RunKeeps(trace: seq<Contacts>, ops: seq<Op>)
    requires IsRun(trace, ops)
    ensures var t := trace[|ops|];
            && Sound(t) && PinsStay(trace[0].identities, t.identities)
            && (TagsSafe(trace, ops) ==> AllTags(t.people) == AllTags(trace[0].people))
  {
    hide Sound, AllTags, Follows, MayLoseTags;
    if ops != [] {
      var n := |ops| - 1;
      var init := trace[..|ops|];
      forall k | 0 <= k < n
        ensures Follows(init[k], ops[..n][k], init[k + 1])
      {
        assert Follows(trace[k], ops[k], trace[k + 1]);
      }
      RunKeeps(init, ops[..n]);
      assert Follows(trace[n], ops[n], trace[n + 1]);
      StepKeeps(trace[n], ops[n], trace[n + 1]);
      if TagsSafe(trace, ops) {
        assert TagsSafe(init, ops[..n]);
        assert !MayLoseTags(trace[n], ops[n]);
      }
    }
  }

  // ---------------------------------------------------------------------------
  // The contact book as it changes
  // ---------------------------------------------------------------------------

  class ContactBook {
    var identities: seq<Identity>
    var people: map<nat, Person>
    var nextPerson: nat

    constructor ()
      ensures Value() == Contacts([], map[], 0) && Sound(Value())
    {
      identities, people, nextPerson := [], map[], 0;
    }

    function Value(): Contacts
      reads this
    {
      Contacts(identities, people, nextPerson)
    }

    /** The twin of the oldest person, if there is one. */
    method FindTwin(i: nat) returns (other: Option<nat>)
      requires i < |identities|
      ensures other.None? <==> forall j: nat :: !Twin(Value(), i, j)
      ensures other.Some? ==> Chosen(Value(), i, other.value)
    {
      hide Twin;
      other := None;
      for k := 0 to |identities|
        invariant other.None? ==> forall j: nat | j < k :: !Twin(Value(), i, j)
        invariant other.Some? ==> other.value < k && Twin(Value(), i, other.value)
        invariant other.Some? ==>
                    forall j: nat | j < k && Twin(Value(), i, j) :: identities[other.value].person <= identities[j].person
      {
        if Twin(Value(), i, k) && (other.None? || identities[k].person < identities[other.value].person) {
          other := Some(k);
        }
      }
      assert forall j: nat | Twin(Value(), i, j) :: j < |identities| by { TwinsAreIdentities(Value(), i); }
    }

    method AbsorbPerson(target: nat, source: nat)
      modifies this`people
      ensures Value() == Absorbed(old(Value()), target, source)
    {
      hide Used, Joined;
      if target in people && source in people {
        people := people[target := Joined(people[target], people[source])];
      }
      if !Used(identities, source) {
        people := people - {source};
      }
    }

    method AutoMerge(i: nat)
      requires i < |identities|
      modifies this
      ensures if old(identities)[i].pinned || (forall j: nat :: !Twin(old(Value()), i, j)) then Value() == old(Value())
              else exists j: nat :: Chosen(old(Value()), i, j) && Value() == AutoMerged(old(Value()), i, j)
    {
      hide Absorbed;
      if identities[i].pinned {
        return;
      }
      var other := FindTwin(i);
      if other.None? {
        return;
      }
      var j := other.value;
      var mine, theirs := identities[i].person, identities[j].person;
      var target, source := Smaller(mine, theirs), Larger(mine, theirs);
      var moved := if mine == source then i else j;
      identities := identities[moved := identities[moved].(person := target)];
      AbsorbPerson(target, source);
      assert Value() == AutoMerged(old(Value()), i, j);
    }

    method UpsertIdentity(platform: Platform, row: UserRow) returns (i: nat)
      modifies this
      ensures Upserts(old(Value()), platform, row, Value())
      ensures i == IdOf(old(Value()), platform, row)
      ensures old(Sound(Value())) && row.phone != Some("") ==> Sound(Value())
    {
      hide Sound, Updated, DisplayName, AutoMerged, Twin;
      ghost var start := Value();
      var known := Lookup(identities, platform, row.externalId);
      if known.Some? {
        i := known.value;
        identities := identities[i := Updated(identities[i], row)];
      } else {
        i := |identities|;
        var name := DisplayName(row.firstName, row.lastName, row.username);
        people := people[nextPerson := Person(name, row.phone, {}, None)];
        identities := identities + [Identity(nextPerson, platform, row.externalId, NonEmpty(row.username),
                                             NonEmpty(row.firstName), NonEmpty(row.lastName), row.phone, row.isBot, false)];
        nextPerson := nextPerson + 1;
      }
      assert Value() == Recorded(start, platform, row);
      if row.phone.Some? {
        var p := identities[i].person;
        if p in people && people[p].phone.None? {
          people := people[p := people[p].(phone := row.phone)];
        }
        assert Value() == WithPhone(Recorded(start, platform, row), i, row.phone.value);
        AutoMerge(i);
      }
      if Sound(start) && row.phone != Some("") {
        UpsertKeeps(start, platform, row, Value());
      }
    }

    method Merge(from: nat, to: nat) returns (problem: Option<Problem>)
      modifies this
      ensures problem.None? ==> MergePeople(old(Value()), from, to) == Ok(Value())
      ensures problem.Some? ==> MergePeople(old(Value()), from, to) == Err(problem.value) && Value() == old(Value())
    {
      hide Absorbed, Gathered;
      if from == to {
        return Some(SamePerson);
      }
      if from !in people {
        return Some(PersonNotFound(from));
      }
      if to !in people {
        return Some(PersonNotFound(to));
      }
      identities := Gathered(identities, from, to);
      AbsorbPerson(to, from);
      problem := None;
    }

    method Split(i: nat) returns (problem: Option<Problem>)
      modifies this
      ensures problem.None? ==> SplitIdentity(old(Value()), i) == Ok(Value())
      ensures problem.Some? ==> SplitIdentity(old(Value()), i) == Err(problem.value) && Value() == old(Value())
    {
      hide DisplayName, Used;
      if i >= |identities| {
        return Some(IdentityNotFound(i));
      }
      var x := identities[i];
      people := people[nextPerson := Person(DisplayName(x.firstName, x.lastName, x.username), x.phone, {}, None)];
      identities := identities[i := x.(person := nextPerson, pinned := true)];
      nextPerson := nextPerson + 1;
      if !Used(identities, x.person) {
        people := people - {x.person};
      }
      problem := None;
    }
  }

  lemma TwinsAreIdentities(c: Contacts, i: nat)
    ensures forall j: nat | Twin(c, i, j) :: j < |c.identities|
  {
  }
}
