/**
 How an account can write to a person: the loop over the person's identities, and the query
 that ranks the identities of all people at once.
 */
module Reach {
  import opened Wrappers
  import opened Seqs
  import opened People

  datatype Method = Direct | ByUsername | ByPhone

  /** The account's row of the user behind an identity. */
  datatype User = User(accessHash: Option<int>)

  /** An identity, with the account's users row if there is one. */
  datatype Entry = Entry(id: nat, identity: Identity, user: Option<User>)

  predicate HasHash(user: Option<User>) {
    user.Some? && user.value.accessHash.Some?
  }

  /** Some and not empty: what `if x:` asks. */
  predicate Truthy(o: Option<string>) {
    o.Some? && o.value != ""
  }

  /** reach_of. */
  function ReachOf(platform: Platform, e: Entry): Option<Method> {
    if e.identity.platform != platform then None
    else if platform == Max then Some(Direct)
    else if HasHash(e.user) then Some(Direct)
    else if Truthy(e.identity.username) then Some(ByUsername)
    else if Truthy(e.identity.phone) then Some(ByPhone)
    else None
  }

  /** The CASE of the query, on identities of the platform. */
  function SqlMethod(platform: Platform, e: Entry): Option<Method> {
    var username := if e.identity.username.Some? then e.identity.username.value else "";
    if platform == Max then Some(Direct)
    else if e.user.Some? && e.user.value.accessHash.Some? then Some(Direct)
    else if username != "" then Some(ByUsername)
    else if e.identity.phone.Some? then Some(ByPhone)
    else None
  }

  /**
   The two agree on an identity of the platform in every case but one: an empty phone where
   the phone would decide.
   */
  lemma MethodsAgree(platform: Platform, e: Entry)
    requires e.identity.platform == platform
    ensures ReachOf(platform, e) == SqlMethod(platform, e)
            <==> !(platform != Max && !HasHash(e.user) && !Truthy(e.identity.username) && e.identity.phone == Some(""))
  {
  }

  function Rank(m: Method): nat {
    match m
    case Direct => 0
    case ByUsername => 1
    case ByPhone => 2
  }

  // ---------------------------------------------------------------------------
  // The loop of reach_person
  // ---------------------------------------------------------------------------

  function IsOf(platform: Platform, person: nat): Entry -> bool {
    (e: Entry) => e.identity.person == person && e.identity.platform == platform
  }

  function ById(e: Entry): int {
    e.id
  }

  /** The rows the loop sees: the person's identities of the platform, by id. */
  function PersonRows(rows: seq<Entry>, platform: Platform, person: nat): seq<Entry> {
    Sort(Filter(rows, IsOf(platform, person)), ById)
  }

  predicate Better(platform: Platform, a: Entry, b: Entry)
    requires ReachOf(platform, a).Some? && ReachOf(platform, b).Some?
  {
    Rank(ReachOf(platform, a).value) < Rank(ReachOf(platform, b).value)
  }

  /** The first row with the best method. */
  function FirstBest(platform: Platform, rows: seq<Entry>): (best: Option<Entry>)
    ensures best.Some? ==> ReachOf(platform, best.value).Some?
  {
    if rows == [] then None
    else
      var best, e := FirstBest(platform, rows[..|rows| - 1]), rows[|rows| - 1];
      if ReachOf(platform, e).Some? && (best.None? || Better(platform, e, best.value)) then Some(e) else best
  }

  /** reach_person, as it runs. */
  method ReachPerson(rows: seq<Entry>, platform: Platform, person: nat) returns (best: Option<(Entry, Method)>)
    ensures best.None? <==> FirstBest(platform, PersonRows(rows, platform, person)).None?
    ensures best.Some? ==> Some(best.value.0) == FirstBest(platform, PersonRows(rows, platform, person))
                           && Some(best.value.1) == ReachOf(platform, best.value.0)
    ensures best.None? <==> forall e | e in rows && e.identity.person == person :: ReachOf(platform, e).None?
  {
    hide Sort, Filter, ReachOf, Better;
    var mine := PersonRows(rows, platform, person);
    best := None;
    for i := 0 to |mine|
      invariant best.None? <==> FirstBest(platform, mine[..i]).None?
      invariant best.Some? ==> Some(best.value.0) == FirstBest(platform, mine[..i])
                               && Some(best.value.1) == ReachOf(platform, best.value.0)
    {
      assert mine[..i + 1][..i] == mine[..i];
      var reach := ReachOf(platform, mine[i]);
      if reach.Some? && (best.None? || Rank(reach.value) < Rank(best.value.1)) {
        assert best.Some? ==> (Better(platform, mine[i], best.value.0) <==> Rank(reach.value) < Rank(best.value.1))
          by { BetterIs(platform, mine[i], best); }
        best := Some((mine[i], reach.value));
      } else {
        assert reach.Some? && best.Some? ==> !Better(platform, mine[i], best.value.0)
          by { BetterIs(platform, mine[i], best); }
      }
    }
    assert mine[..|mine|] == mine;
    NoneMeansNone(rows, platform, person);
  }

  lemma BetterIs(platform: Platform, e: Entry, best: Option<(Entry, Method)>)
    ensures best.Some? && ReachOf(platform, e).Some? && ReachOf(platform, best.value.0) == Some(best.value.1) ==>
              (Better(platform, e, best.value.0) <==> Rank(ReachOf(platform, e).value) < Rank(best.value.1))
  {
  }

  /** a comes before b among the rows of a person: better method, or the same and a smaller id. */
  predicate Leads(platform: Platform, a: Entry, b: Entry)
    requires ReachOf(platform, a).Some? && ReachOf(platform, b).Some?
  {
    Better(platform, a, b) || (Rank(ReachOf(platform, a).value) == Rank(ReachOf(platform, b).value) && a.id <= b.id)
  }

  ghost predicate AscendingIds(rows: seq<Entry>) {
    forall i, j | 0 <= i < j < |rows| :: rows[i].id <= rows[j].id
  }

  lemma LeadsStep(platform: Platform, best: Entry, e: Entry, x: Entry)
    requires ReachOf(platform, best).Some? && ReachOf(platform, e).Some? && ReachOf(platform, x).Some?
    requires Leads(platform, best, x) && best.id <= e.id
    ensures if Better(platform, e, best) then Leads(platform, e, x) else Leads(platform, best, e)
  {
  }

  /** Over rows by id, the first best leads every reachable row. */
  lemma {:induction false} FirstBestLeads(platform: Platform, rows: seq<Entry>)
    requires AscendingIds(rows)
    ensures var best := FirstBest(platform, rows);
            && (best.None? <==> forall e | e in rows :: ReachOf(platform, e).None?)
            && (best.Some? ==> best.value in rows
                               && forall e | e in rows && ReachOf(platform, e).Some? :: Leads(platform, best.value, e))
  {
    hide ReachOf, Leads, Better;
    if rows != [] {
      var init, e := rows[..|rows| - 1], rows[|rows| - 1];
      FirstBestLeads(platform, init);
      assert rows == init + [e];
      var best := FirstBest(platform, init);
      if ReachOf(platform, e).Some? {
        LeadsItself(platform, e);
        if best.Some? {
          var i :| 0 <= i < |init| && init[i] == best.value;
          assert rows[i].id <= rows[|rows| - 1].id;
          forall x | x in init && ReachOf(platform, x).Some?
            ensures if Better(platform, e, best.value) then Leads(platform, e, x) else Leads(platform, best.value, e)
          {
            LeadsStep(platform, best.value, e, x);
          }
        }
      }
    }
  }

  lemma LeadsItself(platform: Platform, e: Entry)
    requires ReachOf(platform, e).Some?
    ensures Leads(platform, e, e)
  {
  }

  lemma PersonRowsAre(rows: seq<Entry>, platform: Platform, person: nat)
    ensures AscendingIds(PersonRows(rows, platform, person))
    ensures forall e :: e in PersonRows(rows, platform, person)
                        <==> e in rows && e.identity.person == person && e.identity.platform == platform
  {
    hide Sort, Filter;
    var mine := Filter(rows, IsOf(platform, person));
    FilterIn(rows, IsOf(platform, person));
    SortKeeps(mine, ById);
    SortSorted(mine, ById);
    SameElements(Sort(mine, ById), mine);
    forall i, j | 0 <= i < j < |Sort(mine, ById)|
      ensures Sort(mine, ById)[i].id <= Sort(mine, ById)[j].id
    {
      assert ById(Sort(mine, ById)[i]) <= ById(Sort(mine, ById)[j]);
    }
  }

  lemma NoneMeansNone(rows: seq<Entry>, platform: Platform, person: nat)
    ensures FirstBest(platform, PersonRows(rows, platform, person)).None?
            <==> forall e | e in rows && e.identity.person == person :: ReachOf(platform, e).None?
  {
    hide PersonRows, FirstBest;
    PersonRowsAre(rows, platform, person);
    FirstBestLeads(platform, PersonRows(rows, platform, person));
    forall e | e in rows && e.identity.person == person && e.identity.platform != platform
      ensures ReachOf(platform, e).None?
    {
    }
  }

  /** An identity of the person on the platform. */
  predicate Mine(rows: seq<Entry>, platform: Platform, person: nat, e: Entry) {
    e in rows && e.identity.person == person && e.identity.platform == platform
  }

  /** Without asking anybody: on MAX always, on Telegram with an access hash. */
  predicate Directly(e: Entry) {
    e.identity.platform == Max || (e.user.Some? && e.user.value.accessHash.Some?)
  }

  predicate Named(e: Entry) {
    e.identity.username.Some? && e.identity.username.value != ""
  }

  predicate Called(e: Entry) {
    e.identity.phone.Some? && e.identity.phone.value != ""
  }

  /**
   What the loop finds, by the rows' own columns: an identity that can be written to directly,
   if the person has one, else one with a username, else one with a phone, and of these the
   one with the smallest id; nothing if the person has none of them.
   */
  lemma ReachedHow(rows: seq<Entry>, platform: Platform, person: nat)
    ensures var best := FirstBest(platform, PersonRows(rows, platform, person));
            && (best.None? <==> forall e | Mine(rows, platform, person, e) :: !Directly(e) && !Named(e) && !Called(e))
            && (best.Some? ==>
                  var b := best.value;
                  && Mine(rows, platform, person, b)
                  && ReachOf(platform, b) == Some(if Directly(b) then Direct else if Named(b) then ByUsername else ByPhone)
                  && forall e | Mine(rows, platform, person, e) ::
                       && (Directly(e) ==> Directly(b) && b.id <= e.id)
                       && (Named(e) && !Directly(b) ==> Named(b) && b.id <= e.id)
                       && (Called(e) && !Directly(b) && !Named(b) ==> Called(b) && b.id <= e.id))
  {
    hide PersonRows, FirstBest;
    PersonRowsAre(rows, platform, person);
    FirstBestLeads(platform, PersonRows(rows, platform, person));
    forall e
      ensures Mine(rows, platform, person, e) <==> e in PersonRows(rows, platform, person)
      ensures Mine(rows, platform, person, e) ==> (ReachOf(platform, e).None? <==> !Directly(e) && !Named(e) && !Called(e))
    {
    }
  }

  // ---------------------------------------------------------------------------
  // The query of reachable
  // ---------------------------------------------------------------------------

  function Candidate(platform: Platform): Entry -> bool {
    (e: Entry) => e.identity.platform == platform && SqlMethod(platform, e).Some?
  }

  function SqlRank(platform: Platform, e: Entry): nat {
    var m := SqlMethod(platform, e);
    if m == Some(Direct) then 0 else if m == Some(ByUsername) then 1 else 2
  }

  /** ORDER BY person_id, rank, identity_id. */
  predicate Ahead(platform: Platform, a: Entry, b: Entry) {
    if a.identity.person != b.identity.person then a.identity.person < b.identity.person
    else if SqlRank(platform, a) != SqlRank(platform, b) then SqlRank(platform, a) < SqlRank(platform, b)
    else a.id < b.id
  }

  function Ranked(platform: Platform, e: Entry, rows: seq<Entry>): seq<Entry> {
    if rows == [] || !Ahead(platform, e, rows[|rows| - 1]) then rows + [e]
    else Ranked(platform, e, rows[..|rows| - 1]) + [rows[|rows| - 1]]
  }

  function OrderBy(platform: Platform, rows: seq<Entry>): seq<Entry> {
    if rows == [] then [] else Ranked(platform, rows[|rows| - 1], OrderBy(platform, rows[..|rows| - 1]))
  }

  /** DISTINCT ON (person_id): the first row of each group. */
  function DistinctOn(rows: seq<Entry>): seq<Entry> {
    if rows == [] then []
    else
      var init, e := rows[..|rows| - 1], rows[|rows| - 1];
      DistinctOn(init) + if init != [] && init[|init| - 1].identity.person == e.identity.person then [] else [e]
  }

  /** The rows of reachable, before the page is cut. */
  function Reachable(rows: seq<Entry>, platform: Platform): seq<Entry> {
    DistinctOn(OrderBy(platform, Filter(rows, Candidate(platform))))
  }

  ghost predicate InRank(platform: Platform, rows: seq<Entry>) {
    forall i, j | 0 <= i < j < |rows| :: !Ahead(platform, rows[j], rows[i])
  }

  lemma {:induction false} RankedKeeps(platform: Platform, e: Entry, rows: seq<Entry>)
    ensures multiset(Ranked(platform, e, rows)) == multiset(rows) + multiset{e}
  {
    hide Ahead;
    if rows != [] && Ahead(platform, e, rows[|rows| - 1]) {
      RankedKeeps(platform, e, rows[..|rows| - 1]);
      assert rows == rows[..|rows| - 1] + [rows[|rows| - 1]];
    }
  }

  lemma RankedIn(platform: Platform, e: Entry, rows: seq<Entry>, x: Entry)
    ensures x in Ranked(platform, e, rows) <==> x == e || x in rows
  {
    hide Ranked;
    RankedKeeps(platform, e, rows);
    assert x in Ranked(platform, e, rows) <==> x in multiset(Ranked(platform, e, rows));
    assert x in rows <==> x in multiset(rows);
  }

  lemma AheadOrder(platform: Platform, a: Entry, b: Entry, c: Entry)
    ensures Ahead(platform, a, b) ==> !Ahead(platform, b, a)
    ensures !Ahead(platform, b, a) && !Ahead(platform, c, b) ==> !Ahead(platform, c, a)
  {
    hide SqlRank;
  }

  lemma {:induction false} RankedInRank(platform: Platform, e: Entry, rows: seq<Entry>)
    requires InRank(platform, rows)
    ensures InRank(platform, Ranked(platform, e, rows))
  {
    hide Ahead;
    if rows != [] && Ahead(platform, e, rows[|rows| - 1]) {
      var init, last := rows[..|rows| - 1], rows[|rows| - 1];
      RankedInRank(platform, e, init);
      var p := Ranked(platform, e, init);
      forall i | 0 <= i < |p|
        ensures !Ahead(platform, last, p[i])
      {
        RankedIn(platform, e, init, p[i]);
        AheadOrder(platform, e, last, last);
        if p[i] in init {
          var k :| 0 <= k < |init| && init[k] == p[i];
          assert !Ahead(platform, rows[|rows| - 1], rows[k]);
        }
      }
    } else if rows != [] {
      forall i | 0 <= i < |rows|
        ensures !Ahead(platform, e, rows[i])
      {
        assert i < |rows| - 1 ==> !Ahead(platform, rows[|rows| - 1], rows[i]);
        AheadOrder(platform, rows[i], rows[|rows| - 1], e);
      }
    }
  }

  lemma {:induction false} OrderByInRank(platform: Platform, rows: seq<Entry>)
    ensures InRank(platform, OrderBy(platform, rows)) && multiset(OrderBy(platform, rows)) == multiset(rows)
  {
    hide InRank, Ranked;
    if rows != [] {
      var init := rows[..|rows| - 1];
      OrderByInRank(platform, init);
      RankedInRank(platform, rows[|rows| - 1], OrderBy(platform, init));
      RankedKeeps(platform, rows[|rows| - 1], OrderBy(platform, init));
      assert rows == init + [rows[|rows| - 1]];
    } else {
      assert InRank(platform, []) by { NothingInRank(platform); }
    }
  }

  lemma NothingInRank(platform: Platform)
    ensures InRank(platform, [])
  {
  }

  /** Nothing of its person is ahead of it. */
  ghost predicate First(platform: Platform, rows: seq<Entry>, e: Entry) {
    e in rows && forall x | x in rows && x.identity.person == e.identity.person && x != e :: Ahead(platform, e, x)
  }

  /** No row twice, and no id twice. */
  ghost predicate DistinctIds(rows: seq<Entry>) {
    Distinct(rows) && forall a, b | a in rows && b in rows && a.id == b.id :: a == b
  }

  /** Every earlier row of the last one's person is ahead of it, and the one before it is if any is. */
  lemma LastInRank(platform: Platform, rows: seq<Entry>)
    requires InRank(platform, rows) && DistinctIds(rows) && rows != []
    ensures var init, last := rows[..|rows| - 1], rows[|rows| - 1];
            && (forall x | x in init :: x != last && Ahead(platform, x, last) && !Ahead(platform, last, x))
            && (forall x | x in init && x.identity.person == last.identity.person ::
                  init[|init| - 1].identity.person == last.identity.person)
  {
    hide SqlRank;
    var init, last := rows[..|rows| - 1], rows[|rows| - 1];
    forall x | x in init
      ensures x != last && Ahead(platform, x, last) && !Ahead(platform, last, x)
      ensures x.identity.person == last.identity.person ==> init[|init| - 1].identity.person == last.identity.person
    {
      var k :| 0 <= k < |init| && init[k] == x;
      assert rows[k] != rows[|rows| - 1] && rows[k] in rows && rows[|rows| - 1] in rows;
      assert !Ahead(platform, rows[|rows| - 1], rows[k]);
      assert !Ahead(platform, rows[|rows| - 1], rows[|init| - 1]);
      assert k < |init| - 1 ==> !Ahead(platform, rows[|init| - 1], rows[k]);
    }
  }

  /** An earlier row is first of its person with the last row or without it. */
  lemma FirstWithout(platform: Platform, rows: seq<Entry>, e: Entry)
    requires InRank(platform, rows) && DistinctIds(rows) && rows != [] && e in rows[..|rows| - 1]
    ensures First(platform, rows, e) <==> First(platform, rows[..|rows| - 1], e)
  {
    hide Ahead, InRank, DistinctIds;
    var init, last := rows[..|rows| - 1], rows[|rows| - 1];
    LastInRank(platform, rows);
    assert forall x :: x in rows <==> x in init || x == last by { assert rows == init + [last]; }
    assert Ahead(platform, e, last);
  }

  /** The last row is first of its person if the row before it is another person's. */
  lemma LastIsFirst(platform: Platform, rows: seq<Entry>)
    requires InRank(platform, rows) && DistinctIds(rows) && rows != []
    ensures var init, last := rows[..|rows| - 1], rows[|rows| - 1];
            First(platform, rows, last) <==> init == [] || init[|init| - 1].identity.person != last.identity.person
  {
    hide Ahead, InRank, DistinctIds;
    var init, last := rows[..|rows| - 1], rows[|rows| - 1];
    LastInRank(platform, rows);
    assert forall x :: x in rows <==> x in init || x == last by { assert rows == init + [last]; }
    if init != [] {
      assert init[|init| - 1] in init;
    }
  }

  lemma InitKeeps(platform: Platform, rows: seq<Entry>)
    requires InRank(platform, rows) && DistinctIds(rows) && rows != []
    ensures InRank(platform, rows[..|rows| - 1]) && DistinctIds(rows[..|rows| - 1])
    ensures rows[|rows| - 1] !in rows[..|rows| - 1]
  {
    hide Ahead;
  }

  /** Over rows in rank, DISTINCT ON keeps exactly the first row of each person. */
  lemma {:induction false} DistinctKeepsFirst(platform: Platform, rows: seq<Entry>, e: Entry)
    requires InRank(platform, rows) && DistinctIds(rows)
    ensures e in DistinctOn(rows) <==> First(platform, rows, e)
  {
    hide InRank, DistinctIds, First;
    if rows != [] {
      var init, last := rows[..|rows| - 1], rows[|rows| - 1];
      InitKeeps(platform, rows);
      DistinctKeepsFirst(platform, init, e);
      FirstIsIn(platform, init, e);
      FirstIsIn(platform, rows, e);
      if e in init {
        FirstWithout(platform, rows, e);
      } else if e == last {
        LastIsFirst(platform, rows);
      }
    } else {
      FirstIsIn(platform, rows, e);
    }
  }

  lemma FirstIsIn(platform: Platform, rows: seq<Entry>, e: Entry)
    ensures First(platform, rows, e) ==> e in rows
  {
  }

  lemma {:induction false} DistinctPersonsAscend(platform: Platform, rows: seq<Entry>)
    requires InRank(platform, rows)
    ensures forall i, j | 0 <= i < j < |DistinctOn(rows)| ::
              DistinctOn(rows)[i].identity.person < DistinctOn(rows)[j].identity.person
    ensures forall e | e in DistinctOn(rows) :: e in rows
  {
    hide SqlRank;
    if rows != [] {
      var init, last := rows[..|rows| - 1], rows[|rows| - 1];
      DistinctPersonsAscend(platform, init);
      var d := DistinctOn(init);
      forall i | 0 <= i < |d| && init[|init| - 1].identity.person != last.identity.person
        ensures d[i].identity.person < last.identity.person
      {
        assert d[i] in init;
        var k :| 0 <= k < |init| && init[k] == d[i];
        assert !Ahead(platform, rows[|rows| - 1], rows[|init| - 1]);
        assert k < |init| - 1 ==> !Ahead(platform, rows[|init| - 1], rows[k]);
      }
    }
  }

  // ---------------------------------------------------------------------------
  // The two agree
  // ---------------------------------------------------------------------------

  ghost predicate PhonesReal(rows: seq<Entry>) {
    forall e | e in rows :: e.identity.phone != Some("")
  }

  lemma DistinctMembers(rows: seq<Entry>, more: seq<Entry>)
    requires DistinctIds(rows) && multiset(more) <= multiset(rows)
    ensures DistinctIds(more)
  {
    DistinctCounts(rows);
    CountsDistinct(more);
    forall e | e in more
      ensures e in rows
    {
      assert e in multiset(more);
    }
  }

  lemma FilterCounts(rows: seq<Entry>, p: Entry -> bool)
    ensures multiset(Filter(rows, p)) <= multiset(rows)
  {
    FilterSplits(rows, p);
  }

  /** The rows of the query are the first ones, by rank and id, of their people. */
  lemma ReachableAreFirst(rows: seq<Entry>, platform: Platform, e: Entry)
    requires DistinctIds(rows)
    ensures e in Reachable(rows, platform) <==> First(platform, Filter(rows, Candidate(platform)), e)
  {
    hide Filter, First, InRank, Candidate, DistinctIds;
    var candidates := Filter(rows, Candidate(platform));
    FilterCounts(rows, Candidate(platform));
    OrderByInRank(platform, candidates);
    DistinctMembers(rows, OrderBy(platform, candidates));
    DistinctKeepsFirst(platform, OrderBy(platform, candidates), e);
    SameElements(OrderBy(platform, candidates), candidates);
    assert First(platform, OrderBy(platform, candidates), e) <==> First(platform, candidates, e)
      by { FirstAmong(platform, OrderBy(platform, candidates), candidates, e); }
  }

  lemma FirstAmong(platform: Platform, a: seq<Entry>, b: seq<Entry>, e: Entry)
    requires forall x :: x in a <==> x in b
    ensures First(platform, a, e) <==> First(platform, b, e)
  {
    hide Ahead;
  }

  /** Leading among a person's rows is being ahead of them in the query. */
  lemma LeadsIsAhead(platform: Platform, a: Entry, b: Entry)
    requires a.identity.platform == platform && b.identity.platform == platform
    requires a.identity.phone != Some("") && b.identity.phone != Some("")
    requires ReachOf(platform, a).Some? && ReachOf(platform, b).Some? && a.identity.person == b.identity.person
    requires a.id != b.id
    ensures Leads(platform, a, b) <==> Ahead(platform, a, b)
  {
    MethodsAgree(platform, a);
    MethodsAgree(platform, b);
  }

  /**
   Two formulations of reachability agree: for every set of identities and users rows, the
   row the query keeps for a person is the one the loop finds, with the same method, and it
   is missing exactly when the loop finds none.
   */
  lemma LoopAndQueryAgree(rows: seq<Entry>, platform: Platform, person: nat, e: Entry)
    requires DistinctIds(rows) && PhonesReal(rows)
    ensures FirstBest(platform, PersonRows(rows, platform, person)) == Some(e)
            <==> e in Reachable(rows, platform) && e.identity.person == person
    ensures e in Reachable(rows, platform) ==> SqlMethod(platform, e) == ReachOf(platform, e) && SqlMethod(platform, e).Some?
  {
    hide Filter, Reachable, PersonRows, FirstBest, SqlMethod, ReachOf, Ahead, Leads, First;
    ReachableAreFirst(rows, platform, e);
    CandidatesAre(rows, platform);
    PersonRowsAre(rows, platform, person);
    FirstBestLeads(platform, PersonRows(rows, platform, person));
    var best := FirstBest(platform, PersonRows(rows, platform, person));
    if best.Some? {
      LoopIsFirst(rows, platform, person, best.value);
    }
    if First(platform, Filter(rows, Candidate(platform)), e) {
      FirstIsCandidate(platform, rows, e);
      if e.identity.person == person {
        OnlyOneFirst(platform, Filter(rows, Candidate(platform)), e, best.value);
      }
    }
  }

  lemma CandidatesAre(rows: seq<Entry>, platform: Platform)
    requires PhonesReal(rows)
    ensures forall x :: x in Filter(rows, Candidate(platform)) <==> x in rows && ReachOf(platform, x).Some?
  {
    hide Filter;
    FilterIn(rows, Candidate(platform));
    forall x | x in rows
      ensures Candidate(platform)(x) <==> ReachOf(platform, x).Some?
    {
      if x.identity.platform == platform {
        MethodsAgree(platform, x);
      }
    }
  }

  lemma FirstIsCandidate(platform: Platform, rows: seq<Entry>, e: Entry)
    requires PhonesReal(rows) && First(platform, Filter(rows, Candidate(platform)), e)
    ensures e in rows && e.identity.platform == platform
    ensures SqlMethod(platform, e) == ReachOf(platform, e) && SqlMethod(platform, e).Some?
  {
    hide Filter;
    FilterIn(rows, Candidate(platform));
    assert Candidate(platform)(e);
    MethodsAgree(platform, e);
  }

  lemma LoopIsFirst(rows: seq<Entry>, platform: Platform, person: nat, best: Entry)
    requires DistinctIds(rows) && PhonesReal(rows)
    requires best in rows && best.identity.person == person && best.identity.platform == platform
    requires ReachOf(platform, best).Some?
    requires forall x | x in rows && x.identity.person == person && x.identity.platform == platform
                        && ReachOf(platform, x).Some? :: Leads(platform, best, x)
    ensures First(platform, Filter(rows, Candidate(platform)), best)
  {
    hide Filter, Ahead, SqlMethod, Leads;
    CandidatesAre(rows, platform);
    forall x | x in Filter(rows, Candidate(platform)) && x.identity.person == person && x != best
      ensures Ahead(platform, best, x)
    {
      LeadsIsAhead(platform, best, x);
    }
  }

  lemma OnlyOneFirst(platform: Platform, rows: seq<Entry>, a: Entry, b: Entry)
    requires First(platform, rows, a) && First(platform, rows, b) && a.identity.person == b.identity.person
    ensures a == b
  {
    hide SqlRank;
  }

  /** One row per person, in the order of the people. */
  lemma OneRowPerPerson(rows: seq<Entry>, platform: Platform)
    ensures forall i, j | 0 <= i < j < |Reachable(rows, platform)| ::
              Reachable(rows, platform)[i].identity.person < Reachable(rows, platform)[j].identity.person
  {
    hide OrderBy, DistinctOn, InRank;
    var candidates := Filter(rows, Candidate(platform));
    OrderByInRank(platform, candidates);
    DistinctPersonsAscend(platform, OrderBy(platform, candidates));
  }

  /** The lists of identities a contact book gives: ids are distinct, phones are not empty. */
  lemma BookIsReal(c: Contacts, users: seq<Option<User>>)
    requires People.Sound(c) && |users| == |c.identities|
    ensures var rows := seq(|users|, i requires 0 <= i < |users| => Entry(i, c.identities[i], users[i]));
            DistinctIds(rows) && PhonesReal(rows)
  {
  }
}
