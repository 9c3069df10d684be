/**
 * The pure derivations of the public landing page: the participant filter, the hero totals,
 * the searchable and sortable grid, the carousel's top three, the MVP, and the per-card
 * estimated value and tier label.
 */
module Standings {
  import opened Types
  import opened Text
  import opened Sorting

  /** The users whose role is Participant, in order; registration status plays no part. */
  function Participants(users: seq<User>): (r: seq<User>)
    ensures |r| <= |users|
    ensures forall i :: 0 <= i < |r| ==> r[i].role == Participant
  {
    if users == [] then []
    else
      var last := users[|users| - 1];
      Participants(users[..|users| - 1]) + (if last.role == Participant then [last] else [])
  }

  /** The `reduce` summing `totalBottles`, left to right from 0. */
  function SumBottles(s: seq<User>): (r: nat)
  {
    if s == [] then 0 else SumBottles(s[..|s| - 1]) + s[|s| - 1].totalBottles
  }

  /** The hero's "Total Bottles": the participants' bottles summed, whatever the other roles hold. */
  function TotalBottles(users: seq<User>): (r: nat)
    ensures r == MaskedBottles(users)
  {
    ParticipantSumIsMasked(users);
    SumBottles(Participants(users))
  }

  /** The hero's "CO2 Offset" in kg, before its one-decimal formatting. */
  function Co2Offset(users: seq<User>): (r: real)
    ensures r == MaskedBottles(users) as real * 0.08
  {
    TotalBottles(users) as real * 0.08
  }

  /** The hero's "Active Pioneers": every participant-role user, whatever their status. */
  function ActivePioneers(users: seq<User>): (r: nat)
    ensures r <= |users|
    ensures r == CountParticipants(users)
  {
    ParticipantCountIsCount(users);
    |Participants(users)|
  }

  /** An independent reference: each user's bottles counted only when the user is a participant. */
  function MaskedBottles(users: seq<User>): nat
  {
    if users == [] then 0
    else (if users[0].role == Participant then users[0].totalBottles else 0) + MaskedBottles(users[1..])
  }

  /** An independent reference: the number of participant-role users. */
  function CountParticipants(users: seq<User>): nat
  {
    if users == [] then 0
    else (if users[0].role == Participant then 1 else 0) + CountParticipants(users[1..])
  }

  lemma {:induction false} ParticipantsConcat(a: seq<User>, b: seq<User>)
    ensures Participants(a + b) == Participants(a) + Participants(b)
  {
    if b != [] {
      var b' := b[..|b| - 1];
      assert (a + b)[..|a + b| - 1] == a + b';
      ParticipantsConcat(a, b');
    } else {
      assert a + b == a;
    }
  }

  lemma {:induction false} SumBottlesConcat(a: seq<User>, b: seq<User>)
    ensures SumBottles(a + b) == SumBottles(a) + SumBottles(b)
  {
    if b != [] {
      var b' := b[..|b| - 1];
      assert (a + b)[..|a + b| - 1] == a + b';
      SumBottlesConcat(a, b');
    } else {
      assert a + b == a;
    }
  }

  lemma ParticipantsSingleton(u: User)
    ensures Participants([u]) == if u.role == Participant then [u] else []
  {
    assert [u][..0] == [];
  }

  lemma ParticipantsCons(u: User, rest: seq<User>)
    ensures Participants([u] + rest) == (if u.role == Participant then [u] else []) + Participants(rest)
  {
    ParticipantsConcat([u], rest);
    ParticipantsSingleton(u);
  }

  lemma SumBottlesSingleton(u: User)
    ensures SumBottles([u]) == u.totalBottles
  {
    assert [u][..0] == [];
  }

  lemma SplitAt(users: seq<User>, i: nat)
    requires i < |users|
    ensures users == users[..i] + [users[i]] + users[i + 1..]
  {
  }

  lemma ParticipantsConcat3(a: seq<User>, m: seq<User>, b: seq<User>)
    ensures Participants(a + m + b) == Participants(a) + Participants(m) + Participants(b)
  {
    ParticipantsConcat(a + m, b);
    ParticipantsConcat(a, m);
  }

  /** The participants of a list with one record singled out at position i. */
  lemma ParticipantsAround(users: seq<User>, i: nat)
    requires i < |users|
    ensures Participants(users)
         == Participants(users[..i]) + Participants([users[i]]) + Participants(users[i + 1..])
  {
    SplitAt(users, i);
    ParticipantsConcat3(users[..i], [users[i]], users[i + 1..]);
  }

  /** One user in front adds its bottles to the participants' sum exactly when it is a participant. */
  lemma ParticipantSumCons(u: User, rest: seq<User>)
    ensures SumBottles(Participants([u] + rest))
         == (if u.role == Participant then u.totalBottles else 0) + SumBottles(Participants(rest))
  {
    ParticipantsCons(u, rest);
    var head := if u.role == Participant then [u] else [];
    SumBottlesConcat(head, Participants(rest));
    SumBottlesSingleton(u);
  }

  /** Summing over the participant-role users only is the masked sum: other roles add nothing. */
  lemma {:induction false} ParticipantSumIsMasked(users: seq<User>)
    ensures SumBottles(Participants(users)) == MaskedBottles(users)
  {
    if users != [] {
      ParticipantSumIsMasked(users[1..]);
      ParticipantSumCons(users[0], users[1..]);
      assert users == [users[0]] + users[1..];
    }
  }

  /** The participant filter keeps every participant-role user, pending ones included. */
  lemma {:induction false} ParticipantCountIsCount(users: seq<User>)
    ensures |Participants(users)| == CountParticipants(users)
  {
    if users != [] {
      ParticipantCountIsCount(users[1..]);
      assert users == [users[0]] + users[1..];
      ParticipantsCons(users[0], users[1..]);
    }
  }

  /** Removing an admin record changes neither the totals nor the pioneer count. */
  lemma AdminNeverContributes(users: seq<User>, i: nat)
    requires i < |users| && users[i].role == Admin
    ensures TotalBottles(users[..i] + users[i + 1..]) == TotalBottles(users)
    ensures Co2Offset(users[..i] + users[i + 1..]) == Co2Offset(users)
    ensures ActivePioneers(users[..i] + users[i + 1..]) == ActivePioneers(users)
  {
    ParticipantsWithoutAdmin(users, i);
  }

  /** The participant filter drops an admin record wherever it stands. */
  lemma ParticipantsWithoutAdmin(users: seq<User>, i: nat)
    requires i < |users| && users[i].role == Admin
    ensures Participants(users[..i] + users[i + 1..]) == Participants(users)
  {
    ParticipantsAround(users, i);
    ParticipantsSingleton(users[i]);
    ParticipantsConcat(users[..i], users[i + 1..]);
  }

  /** Totals split around the record at position i. */
  lemma TotalsAround(users: seq<User>, i: nat)
    requires i < |users|
    ensures TotalBottles(users)
         == SumBottles(Participants(users[..i]))
          + (if users[i].role == Participant then users[i].totalBottles else 0)
          + SumBottles(Participants(users[i + 1..]))
    ensures ActivePioneers(users)
         == |Participants(users[..i])| + (if users[i].role == Participant then 1 else 0)
          + |Participants(users[i + 1..])|
  {
    ParticipantsAround(users, i);
    ParticipantsSingleton(users[i]);
    SumBottlesSingleton(users[i]);
    var front, mid, back := Participants(users[..i]), Participants([users[i]]), Participants(users[i + 1..]);
    SumBottlesConcat(front + mid, back);
    SumBottlesConcat(front, mid);
  }

  /** A change of registration status changes neither the totals nor the pioneer count. */
  lemma StatusDoesNotMatter(users: seq<User>, i: nat, status: RegistrationStatus)
    requires i < |users|
    ensures TotalBottles(users[i := users[i].(registrationStatus := status)]) == TotalBottles(users)
    ensures ActivePioneers(users[i := users[i].(registrationStatus := status)]) == ActivePioneers(users)
  {
    var v := users[i := users[i].(registrationStatus := status)];
    assert v[..i] == users[..i] && v[i + 1..] == users[i + 1..];
    TotalsAround(users, i);
    TotalsAround(v, i);
  }

  /** How many times u occurs in s. */
  function Occurrences(s: seq<User>, u: User): nat
  {
    multiset(s)[u]
  }

  lemma {:induction false} ParticipantsOccurrences(users: seq<User>, u: User)
    ensures Occurrences(Participants(users), u) == if u.role == Participant then Occurrences(users, u) else 0
  {
    if users != [] {
      var init := users[..|users| - 1];
      ParticipantsOccurrences(init, u);
      assert users == init + [users[|users| - 1]];
    }
  }

  lemma ParticipantsMember(users: seq<User>, u: User)
    requires u in Participants(users)
    ensures u in users && u.role == Participant
  {
    ParticipantsOccurrences(users, u);
  }

  /** The search box: keep those whose lower-cased name contains the lower-cased term. */
  function Search(s: seq<User>, term: string): (r: seq<User>)
    ensures |r| <= |s|
    ensures forall i :: 0 <= i < |r| ==> Matches(r[i].name, term)
  {
    if s == [] then []
    else
      var last := s[|s| - 1];
      Search(s[..|s| - 1], term) + (if Matches(last.name, term) then [last] else [])
  }

  /** The search keeps its input's order: searching a concatenation searches each part. */
  lemma {:induction false} SearchConcat(a: seq<User>, b: seq<User>, term: string)
    ensures Search(a + b, term) == Search(a, term) + Search(b, term)
  {
    if b != [] {
      var b' := b[..|b| - 1];
      assert (a + b)[..|a + b| - 1] == a + b';
      SearchConcat(a, b', term);
    } else {
      assert a + b == a;
    }
  }

  /** A single user is kept exactly when its name matches the term. */
  lemma SearchSingleton(u: User, term: string)
    ensures Search([u], term) == if Matches(u.name, term) then [u] else []
  {
    assert [u][..0] == [];
  }

  lemma {:induction false} SearchOccurrences(s: seq<User>, term: string, u: User)
    ensures Occurrences(Search(s, term), u) == if Matches(u.name, term) then Occurrences(s, u) else 0
  {
    if s != [] {
      var init := s[..|s| - 1];
      SearchOccurrences(init, term, u);
      assert s == init + [s[|s| - 1]];
    }
  }

  /** The empty search term keeps every entry, in order. */
  lemma {:induction false} SearchEmptyTermKeepsAll(s: seq<User>)
    ensures Search(s, "") == s
  {
    if s != [] {
      SearchEmptyTermKeepsAll(s[..|s| - 1]);
      EmptyTermMatches(s[|s| - 1].name);
    }
  }

  /** `sortedGridUsers`: participants, then the search filter, then the stable sort. */
  function Grid(users: seq<User>, key: SortKey, order: SortOrder, term: string): (r: seq<User>)
    ensures multiset(r) == multiset(Search(Participants(users), term))
  {
    StableSort(ByKey(key, order), Search(Participants(users), term))
  }

  /**
   * The grid holds exactly the participant-role users whose name matches the term, each as
   * many times as it occurs in the input (so a record listed once appears once).
   */
  lemma GridMembers(users: seq<User>, key: SortKey, order: SortOrder, term: string, u: User)
    ensures Occurrences(Grid(users, key, order, term), u)
         == if u.role == Participant && Matches(u.name, term) then Occurrences(users, u) else 0
  {
    SearchOccurrences(Participants(users), term, u);
    ParticipantsOccurrences(users, u);
  }

  /** The grid is ordered by the selected key in the selected direction. */
  lemma GridOrdered(users: seq<User>, key: SortKey, order: SortOrder, term: string)
    ensures Sorted(ByKey(key, order), Grid(users, key, order, term))
  {
    SortSorted(ByKey(key, order), Search(Participants(users), term));
  }

  /** Entries with equal keys keep the relative order they had among the matching participants. */
  lemma GridStable(users: seq<User>, key: SortKey, order: SortOrder, term: string, x: User)
    ensures KeyClass(ByKey(key, order), Grid(users, key, order, term), x)
         == KeyClass(ByKey(key, order), Search(Participants(users), term), x)
  {
    SortStable(ByKey(key, order), Search(Participants(users), term), x);
  }

  /** Re-sorting the grid with the same settings leaves it unchanged. */
  lemma GridResortUnchanged(users: seq<User>, key: SortKey, order: SortOrder, term: string)
    ensures StableSort(ByKey(key, order), Grid(users, key, order, term)) == Grid(users, key, order, term)
  {
    SortIdempotent(ByKey(key, order), Search(Participants(users), term));
  }

  /** Every grid entry is a matching participant-role user of the input. */
  lemma GridEntries(users: seq<User>, key: SortKey, order: SortOrder, term: string)
    ensures forall i :: 0 <= i < |Grid(users, key, order, term)| ==>
      var u := Grid(users, key, order, term)[i];
      u in users && u.role == Participant && Matches(u.name, term)
  {
    var g := Grid(users, key, order, term);
    forall i | 0 <= i < |g|
      ensures g[i] in users && g[i].role == Participant && Matches(g[i].name, term)
    {
      GridMembers(users, key, order, term, g[i]);
      assert g[i] in multiset(g);
      assert g[i] in multiset(users);
    }
  }

  /** With an empty search the grid is every participant, sorted. */
  lemma GridEmptyTerm(users: seq<User>, key: SortKey, order: SortOrder)
    ensures Grid(users, key, order, "") == StableSort(ByKey(key, order), Participants(users))
  {
    SearchEmptyTermKeepsAll(Participants(users));
  }

  /** "No participants found" is shown exactly when no participant-role user matches. */
  lemma GridEmptyIffNoMatch(users: seq<User>, key: SortKey, order: SortOrder, term: string)
    ensures Grid(users, key, order, term) == []
        <==> forall u :: u in users && u.role == Participant ==> !Matches(u.name, term)
  {
    var g := Grid(users, key, order, term);
    if g != [] {
      GridMembers(users, key, order, term, g[0]);
    } else {
      forall u | u in users && u.role == Participant
        ensures !Matches(u.name, term)
      {
        GridMembers(users, key, order, term, u);
      }
    }
  }

  lemma ThreeParticipants(a: User, b: User, c: User)
    requires a.role == Participant && b.role == Participant && c.role == Participant
    ensures Participants([a, b, c]) == [a, b, c]
  {
    assert [a, b, c] == [a] + [b, c] && [b, c] == [b] + [c];
    ParticipantsCons(a, [b, c]);
    ParticipantsCons(b, [c]);
    ParticipantsSingleton(c);
  }

  lemma ExampleInsert(a: User, b: User, c: User)
    requires a.totalBottles == 500 && b.totalBottles == 1200 && c.totalBottles == 50
    ensures Insert(ByKey(Bottles, Desc), a, [b, c]) == [b, a, c]
  {
    var k := ByKey(Bottles, Desc);
    assert Compare(k, a, b) == 1;
    assert Compare(k, a, c) == -1;
    assert [b, c][1..] == [c];
    assert Insert(k, a, [c]) == [a, c];
  }

  lemma ExampleSortPair(b: User, c: User)
    requires b.totalBottles == 1200 && c.totalBottles == 50
    ensures StableSort(ByKey(Bottles, Desc), [b, c]) == [b, c]
  {
    var k := ByKey(Bottles, Desc);
    assert [b, c][1..] == [c];
    assert StableSort(k, [c]) == Insert(k, c, []) == [c];
    assert Compare(k, b, c) == -1;
  }

  /** Three participants with 500, 1200 and 50 bottles, default sort, no search: B, A, C. */
  lemma GridExample(a: User, b: User, c: User)
    requires a.role == Participant && b.role == Participant && c.role == Participant
    requires a.totalBottles == 500 && b.totalBottles == 1200 && c.totalBottles == 50
    ensures Grid([a, b, c], Bottles, Desc, "") == [b, a, c]
  {
    var k := ByKey(Bottles, Desc);
    GridEmptyTerm([a, b, c], Bottles, Desc);
    ThreeParticipants(a, b, c);
    ExampleSortPair(b, c);
    ExampleInsert(a, b, c);
    assert [a, b, c][1..] == [b, c];
    assert StableSort(k, [a, b, c]) == Insert(k, a, StableSort(k, [b, c]));
  }

  /** `sortedByBottlesForCarousel`: the participants under the bottle-difference comparator. */
  function RankedByBottles(users: seq<User>): (r: seq<User>)
    ensures multiset(r) == multiset(Participants(users))
    ensures |r| == ActivePioneers(users)
  {
    StableSort(ByBottlesDifference, Participants(users))
  }

  function Min(a: int, b: int): int
  {
    if a <= b then a else b
  }

  /** `topThree`: the first three of the ranking, or all of it when shorter. */
  function TopThree(users: seq<User>): (r: seq<User>)
    ensures |r| == Min(3, ActivePioneers(users))
    ensures forall i :: 0 <= i < |r| ==> r[i] == RankedByBottles(users)[i]
  {
    var ranked := RankedByBottles(users);
    ranked[..Min(3, |ranked|)]
  }

  /** `topUser`: element 0 of the ranking, absent when there are no participants. */
  function TopUser(users: seq<User>): (r: Option<User>)
    ensures r.None? <==> ActivePioneers(users) == 0
    ensures r.Some? ==> r.value == RankedByBottles(users)[0]
  {
    var ranked := RankedByBottles(users);
    if ranked == [] then None else Some(ranked[0])
  }

  /** Three participants fill the top three. */
  lemma TopThreeOfThree(a: User, b: User, c: User)
    requires a.role == Participant && b.role == Participant && c.role == Participant
    ensures |TopThree([a, b, c])| == 3
  {
    ThreeParticipants(a, b, c);
  }

  /** A single participant makes a top three of one. */
  lemma TopThreeOfOne(a: User)
    requires a.role == Participant
    ensures |TopThree([a])| == 1
  {
    ParticipantsSingleton(a);
  }

  /** The carousel ranking is the grid's default order (bottles, descending) with no search. */
  lemma RankingIsDefaultGrid(users: seq<User>)
    ensures RankedByBottles(users) == Grid(users, Bottles, Desc, "")
  {
    BottlesDifferenceIsBottlesDesc(Participants(users));
    GridEmptyTerm(users, Bottles, Desc);
  }

  /**
   * The top three are the first min(3, n) participants by bottles, descending: they are
   * participants, ordered among themselves, and none has fewer bottles than any
   * participant ranked after them.
   */
  lemma TopThreeIsBest(users: seq<User>)
    ensures |TopThree(users)| == Min(3, ActivePioneers(users))
    ensures forall u :: u in TopThree(users) ==> u in users && u.role == Participant
    ensures forall i, j :: 0 <= i < j < |TopThree(users)|
              ==> TopThree(users)[i].totalBottles >= TopThree(users)[j].totalBottles
    ensures forall i, j :: 0 <= i < |TopThree(users)| <= j < |RankedByBottles(users)|
              ==> TopThree(users)[i].totalBottles >= RankedByBottles(users)[j].totalBottles
  {
    var ranked := RankedByBottles(users);
    var top := TopThree(users);
    SortSorted(ByBottlesDifference, Participants(users));
    forall u | u in top
      ensures u in users && u.role == Participant
    {
      assert u in multiset(ranked);
      ParticipantsMember(users, u);
    }
    forall i, j | 0 <= i < |top| && i < j < |ranked|
      ensures ranked[i].totalBottles >= ranked[j].totalBottles
    {
      SortedMeaning(ByBottlesDifference, ranked, i, j);
    }
  }

  /** The first element of a key class is preceded in s only by elements of other keys. */
  lemma {:induction false} KeyClassHead(c: Comparator, s: seq<User>, x: User)
    requires KeyClass(c, s, x) != []
    ensures exists i :: 0 <= i < |s| && s[i] == KeyClass(c, s, x)[0]
                     && forall j :: 0 <= j < i ==> !SameKey(c, s[j], x)
  {
    if !SameKey(c, s[0], x) {
      KeyClassHead(c, s[1..], x);
      var i :| 0 <= i < |s[1..]| && s[1..][i] == KeyClass(c, s[1..], x)[0]
             && forall j :: 0 <= j < i ==> !SameKey(c, s[1..][j], x);
      assert s[i + 1] == KeyClass(c, s, x)[0];
      forall j | 0 <= j < i + 1
        ensures !SameKey(c, s[j], x)
      {
        if j > 0 { assert s[j] == s[1..][j - 1]; }
      }
    } else {
      assert s[0] == KeyClass(c, s, x)[0];
    }
  }

  /** The head of the bottles ranking has at least as many bottles as any entry. */
  lemma RankingHeadIsMax(ps: seq<User>)
    requires ps != []
    ensures forall p :: p in ps ==> p.totalBottles <= StableSort(ByBottlesDifference, ps)[0].totalBottles
  {
    var ranked := StableSort(ByBottlesDifference, ps);
    SortSorted(ByBottlesDifference, ps);
    forall p | p in ps
      ensures p.totalBottles <= ranked[0].totalBottles
    {
      assert p in multiset(ranked);
      var k :| 0 <= k < |ranked| && ranked[k] == p;
      if k > 0 { SortedMeaning(ByBottlesDifference, ranked, 0, k); }
    }
  }

  /** The head of the bottles ranking is the earliest entry with that many bottles. */
  lemma RankingHeadIsEarliest(ps: seq<User>)
    requires ps != []
    ensures exists i :: 0 <= i < |ps| && ps[i] == StableSort(ByBottlesDifference, ps)[0]
                     && forall j :: 0 <= j < i ==> ps[j].totalBottles != ps[i].totalBottles
  {
    var c := ByBottlesDifference;
    var ranked := StableSort(c, ps);
    var u := ranked[0];
    SortStable(c, ps, u);
    assert KeyClass(c, ranked, u)[0] == u;
    KeyClassHead(c, ps, u);
  }

  /**
   * The MVP is absent exactly when there are no participants; otherwise it is a participant
   * with the most bottles, and among those with that many the first in input order.
   */
  lemma TopUserIsMvp(users: seq<User>)
    ensures TopUser(users).None? <==> ActivePioneers(users) == 0
    ensures TopUser(users).Some? ==>
      var u := TopUser(users).value;
      var ps := Participants(users);
      && u in users && u.role == Participant
      && (forall p :: p in ps ==> p.totalBottles <= u.totalBottles)
      && exists i :: 0 <= i < |ps| && ps[i] == u && forall j :: 0 <= j < i ==> ps[j].totalBottles < u.totalBottles
  {
    var ps := Participants(users);
    if ps != [] {
      var u := RankedByBottles(users)[0];
      assert u in multiset(RankedByBottles(users));
      ParticipantsMember(users, u);
      RankingHeadIsMax(ps);
      RankingHeadIsEarliest(ps);
      var i :| 0 <= i < |ps| && ps[i] == u && forall j :: 0 <= j < i ==> ps[j].totalBottles != ps[i].totalBottles;
      forall j | 0 <= j < i
        ensures ps[j].totalBottles < u.totalBottles
      {
        assert ps[j] in ps;
      }
      assert 0 <= i < |ps| && ps[i] == u;
    }
  }

  /** The three tiers that `getRank` returns. */
  datatype Rank = Novice | Master | Whale

  /** A grid card's tier badge: its text and its colour class. */
  datatype Badge = Badge(text: string, colour: string)

  /** The badge of a tier: Whale in purple, Master as "Pro" in blue, Novice in slate. */
  function TierBadge(rank: Rank): (r: Badge)
    ensures r.text == "Whale" || r.text == "Pro" || r.text == "Novice"
    ensures r.text == "Whale" <==> r.colour == "text-purple-400"
    ensures r.text == "Pro" <==> r.colour == "text-blue-400"
    ensures r.text == "Novice" <==> r.colour == "text-slate-400"
    ensures rank == Whale <==> r == Badge("Whale", "text-purple-400")
    ensures rank == Master <==> r == Badge("Pro", "text-blue-400")
    ensures rank == Novice <==> r == Badge("Novice", "text-slate-400")
  {
    match rank
    case Whale => Badge("Whale", "text-purple-400")
    case Master => Badge("Pro", "text-blue-400")
    case Novice => Badge("Novice", "text-slate-400")
  }

  /** Distinct tiers get distinct labels and distinct colours, so the badge identifies the tier. */
  lemma TierBadgeDistinguishes(a: Rank, b: Rank)
    ensures TierBadge(a).text == TierBadge(b).text <==> a == b
    ensures TierBadge(a).colour == TierBadge(b).colour <==> a == b
  {
  }

  /** The rate a card multiplies by: the cached price, or 32.5 when it is null or 0. */
  function EffectiveRate(cache: Option<real>): real
  {
    if cache.None? || cache.value == 0.0 then 32.5 else cache.value
  }

  /** A card's "Est. Value": the XRP balance times the live price, or times 32.5 while none is cached. */
  function EstimatedValue(totalXrp: real, cache: Option<real>): (r: real)
    ensures cache == None || cache == Some(0.0) ==> r == totalXrp * 32.5
    ensures cache.Some? && cache.value != 0.0 ==> r == totalXrp * cache.value
  {
    totalXrp * EffectiveRate(cache)
  }

  /** A grid card: what `sortedGridUsers.map` renders for one user, minus markup. */
  datatype Card = Card(name: string, bottles: nat, xrp: real, tierLabel: string, estimatedValue: real)

  /** The cards of the grid, one per grid entry, in grid order. */
  function Cards(users: seq<User>, key: SortKey, order: SortOrder, term: string,
                 rankOf: nat -> Rank, cache: Option<real>): (r: seq<Card>)
    ensures |r| == |Grid(users, key, order, term)|
    ensures forall i :: 0 <= i < |r| ==>
      var u := Grid(users, key, order, term)[i];
      r[i].name == u.name && r[i].bottles == u.totalBottles && r[i].xrp == u.totalXrp
      && r[i].tierLabel == TierBadge(rankOf(u.totalBottles)).text
      && r[i].estimatedValue == EstimatedValue(u.totalXrp, cache)
  {
    var g := Grid(users, key, order, term);
    seq(|g|, i requires 0 <= i < |g| =>
      Card(g[i].name, g[i].totalBottles, g[i].totalXrp, TierBadge(rankOf(g[i].totalBottles)).text,
           EstimatedValue(g[i].totalXrp, cache)))
  }
}
