/**
 Rating periods: the cross-check between the matches of a period and the opponent lists its updates
 claim, and the derived ratings. The Glicko-2 step is a parameter, and so are the identifier checks.
 */
module Rating {
  import opened Process
  import opened Ordering

  const SCORE_SCALE: nat := 1_000_000

  datatype RatingValue = RatingValue(ratingMilli: int, deviationMilli: nat, volatilityNano: nat)
  datatype Opponent = Opponent(rating: RatingValue, score: nat)
  datatype Match = Match(matchId: string, seriesId: string, game: nat, one: string, two: string, scoreOne: nat)
  datatype Update = Update(entrant: string, previous: RatingValue, opponents: seq<Opponent>)

  /** `header` says whether schema version, period identity and pool are accepted. */
  datatype Period = Period(header: bool, matches: seq<Match>, updates: seq<Update>)

  datatype RatingError = InvalidInput | NumericalFailure

  type IdCheck = string -> bool

  predicate ValidRating(v: RatingValue) {
    && -1_000_000 <= v.ratingMilli <= 5_000_000
    && 1 <= v.deviationMilli <= 350_000
    && 1_000 <= v.volatilityNano <= 1_000_000_000
  }

  predicate ValidMatch(m: Match, validId: IdCheck) {
    && validId(m.matchId) && validId(m.seriesId) && m.game != 0
    && validId(m.one) && validId(m.two) && m.one != m.two && m.scoreOne <= SCORE_SCALE
  }

  predicate ValidUpdate(u: Update, validId: IdCheck) {
    && ValidRating(u.previous) && validId(u.entrant)
    && forall i | 0 <= i < |u.opponents| :: u.opponents[i].score <= SCORE_SCALE && ValidRating(u.opponents[i].rating)
  }

  // ---------------------------------------------------------------- what an update has to list

  type Previous = map<string, RatingValue>

  /** The opponents a match gives an entrant. */
  function Entries(m: Match, entrant: string, previous: Previous): seq<Opponent> {
    (if m.one == entrant && m.two in previous then [Opponent(previous[m.two], m.scoreOne)] else [])
    + (if m.two == entrant && m.one in previous && m.scoreOne <= SCORE_SCALE
       then [Opponent(previous[m.one], SCORE_SCALE - m.scoreOne)] else [])
  }

  function Required(matches: seq<Match>, entrant: string, previous: Previous): seq<Opponent> {
    if matches == [] then []
    else Required(matches[..|matches| - 1], entrant, previous) + Entries(matches[|matches| - 1], entrant, previous)
  }

  function PreviousOf(updates: seq<Update>): Previous {
    if updates == [] then map[]
    else PreviousOf(updates[..|updates| - 1])[updates[|updates| - 1].entrant := updates[|updates| - 1].previous]
  }

  function MatchKey(m: Match): string {
    m.matchId
  }

  function UpdateKey(u: Update): string {
    u.entrant
  }

  predicate UniqueMatches(ms: seq<Match>) {
    UniqueBy(ms, MatchKey)
  }

  predicate UniqueEntrants(us: seq<Update>) {
    UniqueBy(us, UpdateKey)
  }

  /** The meaning of validation. */
  ghost predicate Accepted(p: Period, validId: IdCheck) {
    && p.header && p.updates != []
    && (forall i | 0 <= i < |p.matches| :: ValidMatch(p.matches[i], validId)) && UniqueMatches(p.matches)
    && (forall i | 0 <= i < |p.updates| :: ValidUpdate(p.updates[i], validId)) && UniqueEntrants(p.updates)
    && CrossChecked(p.matches, p.updates)
  }

  /** Both entrants of every match are updated, and every update lists exactly the opponents the matches gave it. */
  ghost predicate CrossChecked(matches: seq<Match>, updates: seq<Update>) {
    var previous := PreviousOf(updates);
    && (forall i | 0 <= i < |matches| :: matches[i].one in previous && matches[i].two in previous)
    && (forall i | 0 <= i < |updates| ::
          multiset(updates[i].opponents) == multiset(Required(matches, updates[i].entrant, previous)))
  }

  // ---------------------------------------------------------------- the order opponents are sorted by

  predicate OpponentLeq(a: Opponent, b: Opponent) {
    || a.rating.ratingMilli < b.rating.ratingMilli
    || (a.rating.ratingMilli == b.rating.ratingMilli
        && ( || a.rating.deviationMilli < b.rating.deviationMilli
             || (a.rating.deviationMilli == b.rating.deviationMilli
                 && ( || a.rating.volatilityNano < b.rating.volatilityNano
                      || (a.rating.volatilityNano == b.rating.volatilityNano && a.score <= b.score)))))
  }

  lemma {:induction false} OpponentOrder(xs: seq<Opponent>)
    ensures Preorder(OpponentLeq) && Distinguishes(xs, OpponentLeq)
  {
    forall x, y | OpponentLeq(x, y) && OpponentLeq(y, x) ensures x == y {
      assert x.rating == y.rating;
    }
  }

  lemma {:induction false} SortedListsAgree(a: seq<Opponent>, b: seq<Opponent>)
    ensures Sort(a, OpponentLeq) == Sort(b, OpponentLeq) <==> multiset(a) == multiset(b)
  {
    OpponentOrder(a);
    SortEqualIff(a, b, OpponentLeq);
  }

  // ---------------------------------------------------------------- the loops

  lemma {:induction false} PreviousKeys(us: seq<Update>, n: nat)
    requires n <= |us|
    ensures forall e :: e in PreviousOf(us[..n]) <==> exists i :: 0 <= i < n && us[i].entrant == e
  {
    if n > 0 {
      PreviousKeys(us, n - 1);
      assert us[..n][..n - 1] == us[..n - 1];
      forall e ensures e in PreviousOf(us[..n]) <==> exists i :: 0 <= i < n && us[i].entrant == e {
        if e == us[n - 1].entrant {
          assert 0 <= n - 1 < n && us[n - 1].entrant == e;
        }
      }
    }
  }

  method CheckMatches(ms: seq<Match>, validId: IdCheck) returns (ok: bool)
    ensures ok <==> (forall i | 0 <= i < |ms| :: ValidMatch(ms[i], validId)) && UniqueMatches(ms)
  {
    var ids: set<string> := {};
    for i := 0 to |ms|
      invariant forall x :: x in ids <==> exists k :: 0 <= k < i && ms[k].matchId == x
      invariant forall k | 0 <= k < i :: ValidMatch(ms[k], validId)
      invariant UniqueMatches(ms[..i])
    {
      if !ValidMatch(ms[i], validId) || ms[i].matchId in ids {
        return false;
      }
      ids := ids + {ms[i].matchId};
    }
    assert ms[..|ms|] == ms;
    return true;
  }

  method CheckUpdates(us: seq<Update>, validId: IdCheck) returns (ok: bool)
    ensures ok <==> (forall i | 0 <= i < |us| :: ValidUpdate(us[i], validId)) && UniqueEntrants(us)
  {
    var entrants: set<string> := {};
    for i := 0 to |us|
      invariant forall x :: x in entrants <==> exists k :: 0 <= k < i && us[k].entrant == x
      invariant forall k | 0 <= k < i :: ValidUpdate(us[k], validId)
      invariant UniqueEntrants(us[..i])
    {
      if !ValidUpdate(us[i], validId) || us[i].entrant in entrants {
        return false;
      }
      entrants := entrants + {us[i].entrant};
    }
    assert us[..|us|] == us;
    return true;
  }

  type Expected = map<string, seq<Opponent>>

  function Listed(expected: Expected, entrant: string): seq<Opponent> {
    if entrant in expected then expected[entrant] else []
  }

  function Push(expected: Expected, entrant: string, o: Opponent): Expected {
    expected[entrant := Listed(expected, entrant) + [o]]
  }

  /** The map holds what every entrant has to list. */
  ghost predicate Collects(expected: Expected, ms: seq<Match>, previous: Previous) {
    forall e :: Listed(expected, e) == Required(ms, e, previous)
  }

  lemma {:induction false} CollectsNothing(previous: Previous)
    ensures Collects(map[], [], previous)
  {
  }

  lemma {:induction false} CollectsMore(expected: Expected, ms: seq<Match>, m: Match, previous: Previous)
    requires Collects(expected, ms, previous)
    requires m.one != m.two && m.scoreOne <= SCORE_SCALE && m.one in previous && m.two in previous
    ensures var first := Push(expected, m.one, Opponent(previous[m.two], m.scoreOne));
            Collects(Push(first, m.two, Opponent(previous[m.one], SCORE_SCALE - m.scoreOne)), ms + [m], previous)
  {
    var first := Push(expected, m.one, Opponent(previous[m.two], m.scoreOne));
    var both := Push(first, m.two, Opponent(previous[m.one], SCORE_SCALE - m.scoreOne));
    forall e ensures Listed(both, e) == Required(ms + [m], e, previous) {
      hide *;
      RequiredMore(ms, m, e, previous);
      PushedBoth(expected, m, e, previous);
      ListedIs(expected, ms, previous, e);
    }
  }

  lemma {:induction false} ListedIs(expected: Expected, ms: seq<Match>, previous: Previous, e: string)
    requires Collects(expected, ms, previous)
    ensures Listed(expected, e) == Required(ms, e, previous)
  {
  }

  lemma {:induction false} PushedBoth(expected: Expected, m: Match, e: string, previous: Previous)
    requires m.one != m.two && m.scoreOne <= SCORE_SCALE && m.one in previous && m.two in previous
    ensures var first := Push(expected, m.one, Opponent(previous[m.two], m.scoreOne));
            Listed(Push(first, m.two, Opponent(previous[m.one], SCORE_SCALE - m.scoreOne)), e)
            == Listed(expected, e) + Entries(m, e, previous)
  {
  }

  lemma {:induction false} RequiredMore(ms: seq<Match>, m: Match, entrant: string, previous: Previous)
    ensures Required(ms + [m], entrant, previous) == Required(ms, entrant, previous) + Entries(m, entrant, previous)
  {
    assert (ms + [m])[..|ms|] == ms;
  }

  /** Collects what every entrant has to list; None when an entrant of a match is not updated. */
  method Collect(ms: seq<Match>, previous: Previous) returns (r: Option<Expected>)
    requires forall i | 0 <= i < |ms| :: ms[i].one != ms[i].two && ms[i].scoreOne <= SCORE_SCALE
    ensures r.Some? <==> forall i | 0 <= i < |ms| :: ms[i].one in previous && ms[i].two in previous
    ensures r.Some? ==> Collects(r.value, ms, previous)
  {
    hide Collects, Push;
    var expected: Expected := map[];
    CollectsNothing(previous);
    assert ms[..0] == [];
    for i := 0 to |ms|
      invariant forall k | 0 <= k < i :: ms[k].one in previous && ms[k].two in previous
      invariant Collects(expected, ms[..i], previous)
    {
      var m := ms[i];
      if m.one !in previous || m.two !in previous {
        return None;
      }
      CollectsMore(expected, ms[..i], m, previous);
      assert ms[..i] + [m] == ms[..i + 1];
      expected := Push(expected, m.one, Opponent(previous[m.two], m.scoreOne));
      expected := Push(expected, m.two, Opponent(previous[m.one], SCORE_SCALE - m.scoreOne));
    }
    assert ms[..|ms|] == ms;
    return Some(expected);
  }

  /** Compares sorted copies, taking each entrant's list out of the map. */
  method CompareLists(us: seq<Update>, expected: Expected) returns (ok: bool)
    requires UniqueEntrants(us)
    ensures ok <==> forall i | 0 <= i < |us| :: multiset(us[i].opponents) == multiset(Listed(expected, us[i].entrant))
  {
    hide Sort, OpponentLeq;
    var left := expected;
    for i := 0 to |us|
      invariant forall k | 0 <= k < i :: multiset(us[k].opponents) == multiset(Listed(expected, us[k].entrant))
      invariant forall k | i <= k < |us| :: Listed(left, us[k].entrant) == Listed(expected, us[k].entrant)
    {
      var u := us[i];
      var actual := Sort(u.opponents, OpponentLeq);
      var required := Sort(Listed(left, u.entrant), OpponentLeq);
      left := left - {u.entrant};
      SortedListsAgree(u.opponents, Listed(expected, u.entrant));
      if actual != required {
        return false;
      }
    }
    return true;
  }

  /** Comparing against the collected lists is the cross-check. */
  lemma {:induction false} ComparedIsCrossChecked(ms: seq<Match>, us: seq<Update>, expected: Expected)
    requires forall i | 0 <= i < |ms| :: ms[i].one in PreviousOf(us) && ms[i].two in PreviousOf(us)
    requires Collects(expected, ms, PreviousOf(us))
    ensures CrossChecked(ms, us) <==>
      forall i | 0 <= i < |us| :: multiset(us[i].opponents) == multiset(Listed(expected, us[i].entrant))
  {
    hide PreviousOf, Listed, Required;
  }

  /** Accepts exactly the periods whose parts are valid and whose lists match the games. */
  method Validate(p: Period, validId: IdCheck) returns (ok: bool)
    ensures ok <==> Accepted(p, validId)
    ensures ok <==> Fair(p, validId)
  {
    AcceptedIffFair(p, validId);
    hide PreviousOf, Listed, Required, Collects, UniqueBy, Fair;
    if !p.header || p.updates == [] {
      return false;
    }
    ok := CheckMatches(p.matches, validId);
    if !ok {
      return;
    }
    ok := CheckUpdates(p.updates, validId);
    if !ok {
      return;
    }
    var previous := PreviousOf(p.updates);
    var expected := Collect(p.matches, previous);
    if expected.None? {
      return false;
    }
    ComparedIsCrossChecked(p.matches, p.updates, expected.value);
    hide CrossChecked, ValidMatch, ValidUpdate;
    ok := CompareLists(p.updates, expected.value);
  }

  // ---------------------------------------------------------------- conservation

  /** Number of entries, or their scores added up. */
  function Weight(os: seq<Opponent>, scored: bool): nat {
    if os == [] then 0
    else Weight(os[..|os| - 1], scored) + if scored then os[|os| - 1].score else 1
  }

  function TotalWeight(us: seq<Update>, scored: bool): nat {
    if us == [] then 0
    else TotalWeight(us[..|us| - 1], scored) + Weight(us[|us| - 1].opponents, scored)
  }

  lemma {:induction false} WeightConcat(a: seq<Opponent>, b: seq<Opponent>, scored: bool)
    ensures Weight(a + b, scored) == Weight(a, scored) + Weight(b, scored)
    decreases |b|
  {
    if b == [] {
      assert a + b == a;
    } else {
      assert (a + b)[..|a + b| - 1] == a + b[..|b| - 1];
      WeightConcat(a, b[..|b| - 1], scored);
    }
  }

  lemma {:induction false} WeightPermutes(a: seq<Opponent>, b: seq<Opponent>, scored: bool)
    requires multiset(a) == multiset(b)
    ensures Weight(a, scored) == Weight(b, scored)
    decreases |a|
  {
    if a == [] {
      SameMembers(a, b);
    } else {
      var j := LastElsewhere(a, b);
      WeightPermutes(a[..|a| - 1], Without(b, j), scored);
      WeightWithout(b, j, scored);
    }
  }

  lemma {:induction false} WeightWithout(b: seq<Opponent>, j: nat, scored: bool)
    requires j < |b|
    ensures Weight(b, scored) == Weight(Without(b, j), scored) + if scored then b[j].score else 1
  {
    assert b == b[..j] + [b[j]] + b[j + 1..];
    WeightConcat(b[..j], b[j + 1..], scored);
    WeightConcat(b[..j] + [b[j]], b[j + 1..], scored);
    WeightConcat(b[..j], [b[j]], scored);
    assert [b[j]][..0] == [];
  }

  /** What the matches require of all updates together. */
  function RequiredWeight(ms: seq<Match>, us: seq<Update>, previous: Previous, scored: bool): nat {
    if us == [] then 0
    else
      RequiredWeight(ms, us[..|us| - 1], previous, scored)
      + Weight(Required(ms, us[|us| - 1].entrant, previous), scored)
  }

  /** What one match gives all updates together. */
  function MatchWeight(m: Match, us: seq<Update>, previous: Previous, scored: bool): nat {
    if us == [] then 0
    else MatchWeight(m, us[..|us| - 1], previous, scored) + Weight(Entries(m, us[|us| - 1].entrant, previous), scored)
  }

  lemma {:induction false} RequiredWeightMore(ms: seq<Match>, m: Match, us: seq<Update>, previous: Previous,
                                              scored: bool)
    ensures RequiredWeight(ms + [m], us, previous, scored)
            == RequiredWeight(ms, us, previous, scored) + MatchWeight(m, us, previous, scored)
    decreases |us|
  {
    if us != [] {
      var e := us[|us| - 1].entrant;
      RequiredWeightMore(ms, m, us[..|us| - 1], previous, scored);
      RequiredMore(ms, m, e, previous);
      WeightConcat(Required(ms, e, previous), Entries(m, e, previous), scored);
    }
  }

  predicate Updated(us: seq<Update>, entrant: string) {
    exists i :: 0 <= i < |us| && us[i].entrant == entrant
  }

  lemma {:induction false} EntriesWeight(m: Match, e: string, previous: Previous, scored: bool)
    requires m.one != m.two && m.scoreOne <= SCORE_SCALE && m.one in previous && m.two in previous
    ensures Weight(Entries(m, e, previous), scored)
            == (if e == m.one then (if scored then m.scoreOne else 1) else 0)
               + (if e == m.two then (if scored then SCORE_SCALE - m.scoreOne else 1) else 0)
  {
    if e == m.one {
      var o := Opponent(previous[m.two], m.scoreOne);
      assert Entries(m, e, previous) == [o] && [o][..0] == [];
    } else if e == m.two {
      var o := Opponent(previous[m.one], SCORE_SCALE - m.scoreOne);
      assert Entries(m, e, previous) == [o] && [o][..0] == [];
    }
  }

  /** A match counts once for each of its entrants. */
  lemma {:induction false} MatchWeightExact(m: Match, us: seq<Update>, previous: Previous, scored: bool)
    requires m.one != m.two && m.scoreOne <= SCORE_SCALE && m.one in previous && m.two in previous && UniqueEntrants(us)
    ensures MatchWeight(m, us, previous, scored)
            == (if Updated(us, m.one) then (if scored then m.scoreOne else 1) else 0)
               + (if Updated(us, m.two) then (if scored then SCORE_SCALE - m.scoreOne else 1) else 0)
    decreases |us|
  {
    if us != [] {
      var n := |us| - 1;
      MatchWeightExact(m, us[..n], previous, scored);
      EntriesWeight(m, us[n].entrant, previous, scored);
      UpdatedMore(us, m.one);
      UpdatedMore(us, m.two);
    }
  }

  lemma {:induction false} UpdatedMore(us: seq<Update>, e: string)
    requires us != [] && UniqueEntrants(us)
    ensures var n := |us| - 1;
            if us[n].entrant == e then Updated(us, e) && !Updated(us[..n], e) else Updated(us, e) == Updated(us[..n], e)
  {
    var n := |us| - 1;
    if us[n].entrant == e {
      forall i | 0 <= i < n ensures us[i].entrant != e {
        assert UpdateKey(us[i]) != UpdateKey(us[n]);
      }
    } else if Updated(us, e) {
      var i :| 0 <= i < |us| && us[i].entrant == e;
      assert us[..n][i].entrant == e;
    } else {
      forall i | 0 <= i < n ensures us[..n][i].entrant != e {
        assert us[i].entrant != e;
      }
    }
  }

  lemma {:induction false} RequiredWeightExact(ms: seq<Match>, us: seq<Update>, previous: Previous, scored: bool)
    requires UniqueEntrants(us)
    requires forall i | 0 <= i < |ms| ::
      && ms[i].one != ms[i].two && ms[i].scoreOne <= SCORE_SCALE && ms[i].one in previous && ms[i].two in previous
      && Updated(us, ms[i].one) && Updated(us, ms[i].two)
    ensures RequiredWeight(ms, us, previous, scored) == if scored then SCORE_SCALE * |ms| else 2 * |ms|
    decreases |ms|
  {
    if ms == [] {
      NothingRequired(us, previous, scored);
    } else {
      var n := |ms| - 1;
      RequiredWeightExact(ms[..n], us, previous, scored);
      assert ms == ms[..n] + [ms[n]];
      RequiredWeightMore(ms[..n], ms[n], us, previous, scored);
      MatchWeightExact(ms[n], us, previous, scored);
    }
  }

  lemma {:induction false} NothingRequired(us: seq<Update>, previous: Previous, scored: bool)
    ensures RequiredWeight([], us, previous, scored) == 0
    decreases |us|
  {
    if us != [] {
      NothingRequired(us[..|us| - 1], previous, scored);
    }
  }

  lemma {:induction false} ListedIsRequired(us: seq<Update>, ms: seq<Match>, previous: Previous, scored: bool)
    requires forall i | 0 <= i < |us| :: multiset(us[i].opponents) == multiset(Required(ms, us[i].entrant, previous))
    ensures TotalWeight(us, scored) == RequiredWeight(ms, us, previous, scored)
    decreases |us|
  {
    if us != [] {
      var n := |us| - 1;
      ListedIsRequired(us[..n], ms, previous, scored);
      WeightPermutes(us[n].opponents, Required(ms, us[n].entrant, previous), scored);
    }
  }

  /** Every accepted period lists two opponents per match, and their scores add up to one full score per match. */
  lemma {:induction false} ScoreIsConserved(p: Period, validId: IdCheck)
    requires Accepted(p, validId)
    ensures TotalWeight(p.updates, false) == 2 * |p.matches|
    ensures TotalWeight(p.updates, true) == SCORE_SCALE * |p.matches|
  {
    var us, ms, previous := p.updates, p.matches, PreviousOf(p.updates);
    PreviousKeys(us, |us|);
    assert us[..|us|] == us;
    forall i | 0 <= i < |ms| ensures ms[i].one != ms[i].two && ms[i].scoreOne <= SCORE_SCALE
      && Updated(us, ms[i].one) && Updated(us, ms[i].two)
    {
      assert ValidMatch(ms[i], validId);
    }
    ListedIsRequired(us, ms, previous, false);
    ListedIsRequired(us, ms, previous, true);
    RequiredWeightExact(ms, us, previous, false);
    RequiredWeightExact(ms, us, previous, true);
  }

  // ---------------------------------------------------------------- acceptance in plain terms

  /** The entrant comes into the period with this rating. */
  predicate Comes(us: seq<Update>, entrant: string, rating: RatingValue) {
    exists k :: 0 <= k < |us| && us[k].entrant == entrant && us[k].previous == rating
  }

  /** Match `i` has the entrant first, and `o` is the second one's rating with the first one's score. */
  predicate MetAsFirst(ms: seq<Match>, us: seq<Update>, i: nat, entrant: string, o: Opponent) {
    && i < |ms| && ms[i].one == entrant
    && Comes(us, ms[i].two, o.rating) && o.score == ms[i].scoreOne
  }

  /** Match `i` has the entrant second, and `o` is the first one's rating with what is left of the score. */
  predicate MetAsSecond(ms: seq<Match>, us: seq<Update>, i: nat, entrant: string, o: Opponent) {
    && i < |ms| && ms[i].two == entrant
    && Comes(us, ms[i].one, o.rating) && o.score == 1_000_000 - ms[i].scoreOne
  }

  /** How many matches give the entrant this opponent. */
  function Meetings(ms: seq<Match>, us: seq<Update>, entrant: string, o: Opponent): nat {
    |set i | 0 <= i < |ms| && MetAsFirst(ms, us, i, entrant, o)|
    + |set i | 0 <= i < |ms| && MetAsSecond(ms, us, i, entrant, o)|
  }

  predicate PlainRating(v: RatingValue) {
    && -1_000_000 <= v.ratingMilli <= 5_000_000
    && 1 <= v.deviationMilli <= 350_000 && 1_000 <= v.volatilityNano <= 1_000_000_000
  }

  /**
   A well-formed period in which both entrants of every match are updated and every update lists every
   opponent as often as the matches make them meet.
   */
  ghost predicate Fair(p: Period, validId: IdCheck) {
    && p.header && p.updates != []
    && (forall i | 0 <= i < |p.matches| ::
          var m := p.matches[i];
          && validId(m.matchId) && validId(m.seriesId) && validId(m.one) && validId(m.two)
          && m.game >= 1 && m.one != m.two && m.scoreOne <= 1_000_000
          && Updated(p.updates, m.one) && Updated(p.updates, m.two))
    && (forall i, j | 0 <= i < j < |p.matches| :: p.matches[i].matchId != p.matches[j].matchId)
    && (forall i | 0 <= i < |p.updates| ::
          var u := p.updates[i];
          && validId(u.entrant) && PlainRating(u.previous)
          && (forall o | o in u.opponents :: PlainRating(o.rating) && o.score <= 1_000_000)
          && (forall o :: multiset(u.opponents)[o] == Meetings(p.matches, p.updates, u.entrant, o)))
    && (forall i, j | 0 <= i < j < |p.updates| :: p.updates[i].entrant != p.updates[j].entrant)
  }

  lemma {:induction false} ComesIff(us: seq<Update>, entrant: string, rating: RatingValue)
    requires UniqueEntrants(us)
    ensures Comes(us, entrant, rating) <==> entrant in PreviousOf(us) && PreviousOf(us)[entrant] == rating
  {
    PreviousExact(us);
    if entrant in PreviousOf(us) {
      assert Updated(us, entrant);
    }
  }

  lemma {:induction false} FirstMeetingsMore(ms: seq<Match>, m: Match, us: seq<Update>, entrant: string, o: Opponent)
    ensures |set i | 0 <= i < |ms + [m]| && MetAsFirst(ms + [m], us, i, entrant, o)|
            == |set i | 0 <= i < |ms| && MetAsFirst(ms, us, i, entrant, o)|
               + if m.one == entrant && Comes(us, m.two, o.rating) && o.score == m.scoreOne then 1 else 0
  {
    hide Comes;
    var all, n := ms + [m], |ms|;
    var before := set i | 0 <= i < n && MetAsFirst(ms, us, i, entrant, o);
    assert (set i | 0 <= i < |all| && MetAsFirst(all, us, i, entrant, o))
        == before + if MetAsFirst(all, us, n, entrant, o) then {n} else {};
  }

  lemma {:induction false} SecondMeetingsMore(ms: seq<Match>, m: Match, us: seq<Update>, entrant: string, o: Opponent)
    ensures |set i | 0 <= i < |ms + [m]| && MetAsSecond(ms + [m], us, i, entrant, o)|
            == |set i | 0 <= i < |ms| && MetAsSecond(ms, us, i, entrant, o)|
               + if m.two == entrant && Comes(us, m.one, o.rating) && o.score == 1_000_000 - m.scoreOne then 1 else 0
  {
    hide Comes;
    var all, n := ms + [m], |ms|;
    var before := set i | 0 <= i < n && MetAsSecond(ms, us, i, entrant, o);
    assert (set i | 0 <= i < |all| && MetAsSecond(all, us, i, entrant, o))
        == before + if MetAsSecond(all, us, n, entrant, o) then {n} else {};
  }

  /** One more match adds one meeting for each side it gives this opponent to. */
  lemma {:induction false} MeetingsMore(ms: seq<Match>, m: Match, us: seq<Update>, entrant: string, o: Opponent)
    ensures Meetings(ms + [m], us, entrant, o) == Meetings(ms, us, entrant, o)
      + (if m.one == entrant && Comes(us, m.two, o.rating) && o.score == m.scoreOne then 1 else 0)
      + (if m.two == entrant && Comes(us, m.one, o.rating) && o.score == 1_000_000 - m.scoreOne then 1 else 0)
  {
    hide Comes, MetAsFirst, MetAsSecond;
    FirstMeetingsMore(ms, m, us, entrant, o);
    SecondMeetingsMore(ms, m, us, entrant, o);
  }

  lemma {:induction false} EntriesCount(m: Match, us: seq<Update>, entrant: string, o: Opponent)
    requires UniqueEntrants(us) && m.scoreOne <= SCORE_SCALE
    ensures multiset(Entries(m, entrant, PreviousOf(us)))[o] ==
      (if m.one == entrant && Comes(us, m.two, o.rating) && o.score == m.scoreOne then 1 else 0)
      + (if m.two == entrant && Comes(us, m.one, o.rating) && o.score == 1_000_000 - m.scoreOne then 1 else 0)
  {
    ComesIff(us, m.one, o.rating);
    ComesIff(us, m.two, o.rating);
    hide Comes;
  }

  lemma {:induction false} RequiredCount(ms: seq<Match>, us: seq<Update>, entrant: string, o: Opponent)
    requires UniqueEntrants(us) && forall i | 0 <= i < |ms| :: ms[i].scoreOne <= SCORE_SCALE
    ensures multiset(Required(ms, entrant, PreviousOf(us)))[o] == Meetings(ms, us, entrant, o)
    decreases |ms|
  {
    if ms != [] {
      hide Entries, Comes, Meetings, MetAsFirst, MetAsSecond, PreviousOf;
      var n := |ms| - 1;
      assert ms == ms[..n] + [ms[n]];
      RequiredCount(ms[..n], us, entrant, o);
      MeetingsMore(ms[..n], ms[n], us, entrant, o);
      EntriesCount(ms[n], us, entrant, o);
      RequiredMore(ms[..n], ms[n], entrant, PreviousOf(us));
    }
  }

  lemma {:induction false} CrossCheckedIff(ms: seq<Match>, us: seq<Update>)
    requires UniqueEntrants(us) && forall i | 0 <= i < |ms| :: ms[i].scoreOne <= SCORE_SCALE
    ensures CrossChecked(ms, us) <==>
      && (forall i | 0 <= i < |ms| :: Updated(us, ms[i].one) && Updated(us, ms[i].two))
      && (forall i | 0 <= i < |us| :: forall o :: multiset(us[i].opponents)[o] == Meetings(ms, us, us[i].entrant, o))
  {
    PreviousExact(us);
    hide Meetings, PreviousOf, Required, Updated;
    forall i | 0 <= i < |us|
      ensures multiset(us[i].opponents) == multiset(Required(ms, us[i].entrant, PreviousOf(us)))
        <==> forall o :: multiset(us[i].opponents)[o] == Meetings(ms, us, us[i].entrant, o)
    {
      forall o ensures multiset(Required(ms, us[i].entrant, PreviousOf(us)))[o] == Meetings(ms, us, us[i].entrant, o) {
        RequiredCount(ms, us, us[i].entrant, o);
      }
    }
  }

  /** Exactly the fair periods are accepted. */
  lemma {:induction false} AcceptedIffFair(p: Period, validId: IdCheck)
    ensures Accepted(p, validId) <==> Fair(p, validId)
  {
    hide CrossChecked, Meetings, Updated;
    if Accepted(p, validId) || Fair(p, validId) {
      assert UniqueEntrants(p.updates) by {
        if Fair(p, validId) {
          assert forall i, j | 0 <= i < j < |p.updates| :: UpdateKey(p.updates[i]) != UpdateKey(p.updates[j]);
        }
      }
      assert forall i | 0 <= i < |p.matches| :: p.matches[i].scoreOne <= SCORE_SCALE;
      CrossCheckedIff(p.matches, p.updates);
    }
  }

  // ---------------------------------------------------------------- arrangement does not matter

  /** The opponents an entrant has to list, arrangement forgotten. */
  ghost function Bag(ms: seq<Match>, e: string, previous: Previous): multiset<Opponent> {
    multiset(Required(ms, e, previous))
  }

  lemma {:induction false} BagMore(ms: seq<Match>, m: Match, e: string, previous: Previous)
    ensures Bag(ms + [m], e, previous) == Bag(ms, e, previous) + multiset(Entries(m, e, previous))
  {
    RequiredMore(ms, m, e, previous);
  }

  /** Taking one match out anywhere takes out its entries. */
  lemma {:induction false} BagWithout(ms: seq<Match>, j: nat, e: string, previous: Previous)
    requires j < |ms|
    ensures Bag(ms, e, previous) == Bag(Without(ms, j), e, previous) + multiset(Entries(ms[j], e, previous))
    decreases |ms|
  {
    hide Bag, Entries;
    var n := |ms| - 1;
    var front := ms[..n];
    assert ms == front + [ms[n]];
    BagMore(front, ms[n], e, previous);
    if j == n {
      assert Without(ms, j) == front;
    } else {
      BagWithout(front, j, e, previous);
      assert Without(ms, j) == Without(front, j) + [ms[n]];
      BagMore(Without(front, j), ms[n], e, previous);
    }
  }

  lemma {:induction false} BagPermutes(a: seq<Match>, b: seq<Match>, e: string, previous: Previous)
    requires multiset(a) == multiset(b)
    ensures Bag(a, e, previous) == Bag(b, e, previous)
    decreases |a|
  {
    if a == [] {
      SameMembers(a, b);
      assert b == [];
    } else {
      hide Bag, Entries;
      var n := |a| - 1;
      var j := LastElsewhere(a, b);
      assert Without(a, n) == a[..n];
      BagWithout(a, n, e, previous);
      BagWithout(b, j, e, previous);
      BagPermutes(a[..n], Without(b, j), e, previous);
      hide Without;
    }
  }

  /** With unique entrants the table of previous ratings is exactly the updates. */
  lemma {:induction false} PreviousExact(us: seq<Update>)
    requires UniqueEntrants(us)
    ensures forall e :: e in PreviousOf(us) <==> Updated(us, e)
    ensures forall i | 0 <= i < |us| ::
      us[i].entrant in PreviousOf(us) && PreviousOf(us)[us[i].entrant] == us[i].previous
    decreases |us|
  {
    if us != [] {
      var n := |us| - 1;
      PreviousExact(us[..n]);
      forall e ensures e in PreviousOf(us) <==> Updated(us, e) {
        UpdatedMore(us, e);
      }
      forall i | 0 <= i < |us|
        ensures us[i].entrant in PreviousOf(us) && PreviousOf(us)[us[i].entrant] == us[i].previous
      {
        if i < n {
          assert us[..n][i] == us[i] && UpdateKey(us[i]) != UpdateKey(us[n]);
        }
      }
    }
  }

  lemma {:induction false} PreviousPermutes(a: seq<Update>, b: seq<Update>)
    requires multiset(a) == multiset(b) && UniqueEntrants(a) && UniqueEntrants(b)
    ensures PreviousOf(a) == PreviousOf(b)
  {
    SameMembers(a, b);
    PreviousExact(a);
    PreviousExact(b);
    forall e | e in PreviousOf(a) ensures e in PreviousOf(b) && PreviousOf(a)[e] == PreviousOf(b)[e] {
      var i :| 0 <= i < |a| && a[i].entrant == e;
      assert a[i] in b;
      var j :| 0 <= j < |b| && b[j] == a[i];
    }
    forall e | e in PreviousOf(b) ensures e in PreviousOf(a) {
      var i :| 0 <= i < |b| && b[i].entrant == e;
      assert b[i] in a;
      var j :| 0 <= j < |a| && a[j] == b[i];
    }
  }

  lemma {:induction false} CrossCheckPermutes(p: Period, q: Period)
    requires multiset(p.matches) == multiset(q.matches) && multiset(p.updates) == multiset(q.updates)
    requires UniqueEntrants(p.updates) && UniqueEntrants(q.updates) && CrossChecked(p.matches, p.updates)
    ensures CrossChecked(q.matches, q.updates)
  {
    PreviousPermutes(p.updates, q.updates);
    SameMembers(p.matches, q.matches);
    SameMembers(p.updates, q.updates);
    var previous := PreviousOf(p.updates);
    forall i | 0 <= i < |q.matches| ensures q.matches[i].one in previous && q.matches[i].two in previous {
      assert q.matches[i] in p.matches;
    }
    forall i | 0 <= i < |q.updates|
      ensures multiset(q.updates[i].opponents) == multiset(Required(q.matches, q.updates[i].entrant, previous))
    {
      assert q.updates[i] in p.updates;
      BagPermutes(p.matches, q.matches, q.updates[i].entrant, previous);
    }
  }

  /** Whether a period is accepted depends on its matches and updates, not on their arrangement. */
  lemma {:induction false} AcceptancePermutes(p: Period, q: Period, validId: IdCheck)
    requires p.header == q.header
    requires multiset(p.matches) == multiset(q.matches) && multiset(p.updates) == multiset(q.updates)
    ensures Accepted(p, validId) <==> Accepted(q, validId)
  {
    hide CrossChecked, ValidMatch, ValidUpdate;
    if Accepted(p, validId) {
      AcceptedMoves(p, q, validId);
    }
    if Accepted(q, validId) {
      AcceptedMoves(q, p, validId);
    }
  }

  lemma {:induction false} AcceptedMoves(p: Period, q: Period, validId: IdCheck)
    requires p.header == q.header && Accepted(p, validId)
    requires multiset(p.matches) == multiset(q.matches) && multiset(p.updates) == multiset(q.updates)
    ensures Accepted(q, validId)
  {
    hide CrossChecked, ValidMatch, ValidUpdate;
    SameMembers(p.matches, q.matches);
    SameMembers(p.updates, q.updates);
    UniquePermutes(p.matches, q.matches, MatchKey);
    UniquePermutes(p.updates, q.updates, UpdateKey);
    CrossCheckPermutes(p, q);
    forall i | 0 <= i < |q.matches| ensures ValidMatch(q.matches[i], validId) {
      assert q.matches[i] in p.matches;
    }
    forall i | 0 <= i < |q.updates| ensures ValidUpdate(q.updates[i], validId) {
      assert q.updates[i] in p.updates;
    }
  }

  // ---------------------------------------------------------------- deriving

  type Step = (RatingValue, seq<Opponent>) -> Result<RatingValue, RatingError>
  type Derived = Result<seq<(string, RatingValue)>, RatingError>

  predicate UpdateLeq(a: Update, b: Update) {
    TextLeq(a.entrant, b.entrant)
  }

  /** One rating per update, in order, or the first failure. */
  function RateAll(us: seq<Update>, step: Step): Derived {
    if us == [] then Ok([])
    else
      var n := |us| - 1;
      match RateAll(us[..n], step)
      case Err(e) => Err(e)
      case Ok(done) =>
        match step(us[n].previous, us[n].opponents)
        case Err(e) => Err(e)
        case Ok(next) => Ok(done + [(us[n].entrant, next)])
  }

  method Derive(p: Period, validId: IdCheck, step: Step) returns (r: Derived)
    ensures r == if Accepted(p, validId) then RateAll(Sort(p.updates, UpdateLeq), step) else Err(InvalidInput)
  {
    hide Sort, Accepted, UpdateLeq;
    var ok := Validate(p, validId);
    if !ok {
      return Err(InvalidInput);
    }
    var updates := Sort(p.updates, UpdateLeq);
    var done := [];
    for i := 0 to |updates|
      invariant RateAll(updates[..i], step) == Ok(done)
    {
      assert updates[..i + 1][..i] == updates[..i];
      match step(updates[i].previous, updates[i].opponents) {
        case Err(e) =>
          FailureStays(updates, i + 1, step, e);
          return Err(e);
        case Ok(next) => done := done + [(updates[i].entrant, next)];
      }
    }
    assert updates[..|updates|] == updates;
    return Ok(done);
  }

  lemma {:induction false} FailureStays(us: seq<Update>, n: nat, step: Step, e: RatingError)
    requires n <= |us| && RateAll(us[..n], step) == Err(e)
    ensures RateAll(us, step) == Err(e)
    decreases |us|
  {
    if n == |us| {
      assert us[..n] == us;
    } else {
      assert us[..|us| - 1][..n] == us[..n];
      FailureStays(us[..|us| - 1], n, step, e);
    }
  }

  lemma {:induction false} EntrantOrder(us: seq<Update>)
    ensures Preorder(UpdateLeq)
    ensures UniqueEntrants(us) ==> Distinguishes(us, UpdateLeq)
  {
    forall x, y: Update ensures UpdateLeq(x, y) || UpdateLeq(y, x) {
      TextTotal(x.entrant, y.entrant);
    }
    forall x, y, z: Update | UpdateLeq(x, y) && UpdateLeq(y, z) ensures UpdateLeq(x, z) {
      TextTransitive(x.entrant, y.entrant, z.entrant);
    }
    if UniqueEntrants(us) {
      forall x, y | x in us && y in us && UpdateLeq(x, y) && UpdateLeq(y, x) ensures x == y {
        TextTotal(x.entrant, y.entrant);
        KeyDetermines(us, UpdateKey, x, y);
      }
    }
  }

  /** What a period derives, as a function of the period. */
  ghost function DerivedRatings(p: Period, validId: IdCheck, step: Step): Derived {
    if Accepted(p, validId) then RateAll(Sort(p.updates, UpdateLeq), step) else Err(InvalidInput)
  }

  /** The derived list, failures included, is the same for every arrangement of matches and updates. */
  lemma {:induction false} DerivedPermutes(p: Period, q: Period, validId: IdCheck, step: Step)
    requires p.header == q.header
    requires multiset(p.matches) == multiset(q.matches) && multiset(p.updates) == multiset(q.updates)
    ensures DerivedRatings(p, validId, step) == DerivedRatings(q, validId, step)
  {
    AcceptancePermutes(p, q, validId);
    if Accepted(p, validId) {
      EntrantOrder(p.updates);
      SortEqualIff(p.updates, q.updates, UpdateLeq);
    }
  }

  /** The rating is the step of that entrant's own previous rating and opponents. */
  ghost predicate RatedBy(us: seq<Update>, step: Step, entrant: string, rating: RatingValue) {
    exists u :: u in us && u.entrant == entrant && step(u.previous, u.opponents) == Ok(rating)
  }

  /** A derived list has one entry per entrant, in strictly increasing order, each rated by its own update. */
  lemma {:induction false} DerivedInOrder(p: Period, validId: IdCheck, step: Step)
    requires DerivedRatings(p, validId, step).Ok?
    ensures var list := DerivedRatings(p, validId, step).value;
            && |list| == |p.updates|
            && (forall i, j | 0 <= i < j < |list| :: TextLess(list[i].0, list[j].0))
            && (forall i | 0 <= i < |list| :: RatedBy(p.updates, step, list[i].0, list[i].1))
  {
    var us := Sort(p.updates, UpdateLeq);
    EntrantOrder(p.updates);
    SortSorts(p.updates, UpdateLeq);
    SameMembers(us, p.updates);
    UniquePermutes(p.updates, us, UpdateKey);
    RatedEntrants(us, step);
    forall i, j | 0 <= i < j < |us| ensures TextLess(us[i].entrant, us[j].entrant) {
      assert UpdateLeq(us[i], us[j]) && UpdateKey(us[i]) != UpdateKey(us[j]);
    }
    var list := RateAll(us, step).value;
    forall i | 0 <= i < |us| ensures RatedBy(p.updates, step, list[i].0, list[i].1) {
      assert us[i] in p.updates && us[i].entrant == list[i].0;
    }
  }

  lemma {:induction false} RatedEntrants(us: seq<Update>, step: Step)
    requires RateAll(us, step).Ok?
    ensures var list := RateAll(us, step).value;
            && |list| == |us|
            && forall i | 0 <= i < |us| ::
                 list[i].0 == us[i].entrant && step(us[i].previous, us[i].opponents) == Ok(list[i].1)
    decreases |us|
  {
    if us != [] {
      RatedEntrants(us[..|us| - 1], step);
    }
  }

  /** The update fails in the step, and every entrant in front of it is rated. */
  ghost predicate FailsFirst(us: seq<Update>, step: Step, u: Update, e: RatingError) {
    && u in us && step(u.previous, u.opponents) == Err(e)
    && forall v | v in us && TextLess(v.entrant, u.entrant) :: step(v.previous, v.opponents).Ok?
  }

  lemma {:induction false} RateAllSorted(us: seq<Update>, step: Step)
    requires SortedBy(us, UpdateLeq)
    ensures RateAll(us, step).Ok? <==> forall u | u in us :: step(u.previous, u.opponents).Ok?
    ensures RateAll(us, step).Err? ==> exists u :: FailsFirst(us, step, u, RateAll(us, step).error)
  {
    hide RateAll, TextLeq;
    if RateAll(us, step).Ok? {
      RatedEntrants(us, step);
    } else {
      var k := FirstFailure(us, step);
      forall i | 0 <= i < |us| && TextLess(us[i].entrant, us[k].entrant) ensures i < k {
        TextTotal(us[i].entrant, us[k].entrant);
        assert i > k ==> UpdateLeq(us[k], us[i]);
      }
      assert FailsFirst(us, step, us[k], RateAll(us, step).error);
    }
  }

  /** A period derives a list exactly when it is accepted and every step succeeds. */
  lemma {:induction false} DeriveSucceedsIff(p: Period, validId: IdCheck, step: Step)
    ensures DerivedRatings(p, validId, step).Ok? <==>
      Fair(p, validId) && forall u | u in p.updates :: step(u.previous, u.opponents).Ok?
    ensures !Fair(p, validId) ==> DerivedRatings(p, validId, step) == Err(InvalidInput)
    ensures DerivedRatings(p, validId, step).Err? && Fair(p, validId) ==>
      exists u :: FailsFirst(p.updates, step, u, DerivedRatings(p, validId, step).error)
  {
    AcceptedIffFair(p, validId);
    hide Fair, Accepted, RateAll, Sort, TextLess;
    var us := Sort(p.updates, UpdateLeq);
    EntrantOrder(p.updates);
    SortSorts(p.updates, UpdateLeq);
    SameMembers(us, p.updates);
    RateAllSorted(us, step);
    hide UpdateLeq;
    if RateAll(us, step).Err? {
      var u :| FailsFirst(us, step, u, RateAll(us, step).error);
      assert FailsFirst(p.updates, step, u, RateAll(us, step).error);
    }
  }

  lemma {:induction false} FirstFailure(us: seq<Update>, step: Step) returns (k: nat)
    requires RateAll(us, step).Err?
    ensures k < |us| && step(us[k].previous, us[k].opponents) == Err(RateAll(us, step).error)
    ensures forall i | 0 <= i < k :: step(us[i].previous, us[i].opponents).Ok?
    decreases |us|
  {
    var n := |us| - 1;
    if RateAll(us[..n], step).Err? {
      k := FirstFailure(us[..n], step);
    } else {
      k := n;
      RatedEntrants(us[..n], step);
    }
  }
}
