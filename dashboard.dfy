/** The dashboard of src/components/Dashboard.tsx: the ordering of the leads,
    the choice of what to render, and the state that `loadLeads` and
    `toggleSortOrder` update. */
module Dashboard {
  import opened Wrappers
  import opened LeadTypes
  import opened Decimal
  import opened Strings
  import LeadCard

  // ---------------------------------------------------------------------------
  // Ordering

  datatype SortOrder = Desc | Asc

  /** `toggleSortOrder`'s new value. */
  function Toggled(order: SortOrder): (r: SortOrder)
    ensures r != order
  {
    if order == Desc then Asc else Desc
  }

  /** Toggling twice restores the order. */
  lemma ToggledInvolution(order: SortOrder)
    ensures Toggled(Toggled(order)) == order
  {
  }

  /** `lead.leadInference?.leadScore || 0`: the score a lead sorts by. With
      integer scores `|| 0` only maps 0 to 0, so a lead sorts by its score
      when it has an inference and as 0 otherwise. */
  function EffectiveScore(lead: Lead): (r: int)
    ensures lead.leadInference.None? ==> r == 0
    ensures lead.leadInference.Some? ==> r == lead.leadInference.value.leadScore
  {
    match lead.leadInference
    case None => 0
    case Some(inf) => if inf.leadScore != 0 then inf.leadScore else 0
  }

  /** The comparator handed to `Array.prototype.sort`: negative when `a`
      belongs before `b`, zero for a tie. */
  function Compare(a: Lead, b: Lead, order: SortOrder): int {
    var scoreA, scoreB := EffectiveScore(a), EffectiveScore(b);
    if order == Desc then scoreB - scoreA else scoreA - scoreB
  }

  /** Every pair of leads is in comparator order. */
  ghost predicate SortedBy(s: seq<Lead>, order: SortOrder) {
    forall i, j :: 0 <= i < j < |s| ==> Compare(s[i], s[j], order) <= 0
  }

  /** The leads of `s` whose effective score is `score`, in their order in `s`. */
  function WithScore(s: seq<Lead>, score: int): seq<Lead> {
    if s == [] then []
    else (if EffectiveScore(s[0]) == score then [s[0]] else []) + WithScore(s[1..], score)
  }

  /** Inserts `x` into `s` in front of the first element that does not
      compare below it, so `x` goes before the leads it ties with. */
  function Insert(x: Lead, s: seq<Lead>, order: SortOrder): (r: seq<Lead>)
    ensures |r| == |s| + 1 && multiset(r) == multiset(s) + multiset{x}
    ensures SortedBy(s, order) ==> SortedBy(r, order)
    ensures forall score :: WithScore(r, score) == WithScore([x] + s, score)
  {
    if s == [] || Compare(x, s[0], order) <= 0 then
      [x] + s
    else
      var rest := Insert(x, s[1..], order);
      InsertCount(x, s, rest);
      InsertSorted(x, s, order, rest);
      InsertStable(x, s, order, rest);
      [s[0]] + rest
  }

  lemma InsertCount(x: Lead, s: seq<Lead>, rest: seq<Lead>)
    requires s != []
    requires |rest| == |s| && multiset(rest) == multiset(s[1..]) + multiset{x}
    ensures |[s[0]] + rest| == |s| + 1
    ensures multiset([s[0]] + rest) == multiset(s) + multiset{x}
  {
    assert s == [s[0]] + s[1..];
  }

  lemma InsertSorted(x: Lead, s: seq<Lead>, order: SortOrder, rest: seq<Lead>)
    requires s != [] && Compare(x, s[0], order) > 0
    requires multiset(rest) == multiset(s[1..]) + multiset{x}
    requires SortedBy(s[1..], order) ==> SortedBy(rest, order)
    ensures SortedBy(s, order) ==> SortedBy([s[0]] + rest, order)
  {
    if SortedBy(s, order) {
      var r := [s[0]] + rest;
      forall j | 0 < j < |r| ensures Compare(r[0], r[j], order) <= 0 {
        assert r[j] == rest[j - 1];
        assert rest[j - 1] in multiset(rest);
        if r[j] != x {
          assert r[j] in multiset(s[1..]);
          var k :| 0 <= k < |s[1..]| && s[1..][k] == r[j];
          assert s[k + 1] == r[j];
        }
      }
      assert SortedBy(s[1..], order) by {
        forall i, j | 0 <= i < j < |s[1..]| ensures Compare(s[1..][i], s[1..][j], order) <= 0 {
          assert s[1..][i] == s[i + 1] && s[1..][j] == s[j + 1];
        }
      }
      forall i, j | 0 <= i < j < |r| ensures Compare(r[i], r[j], order) <= 0 {
        if i > 0 {
          assert r[i] == rest[i - 1] && r[j] == rest[j - 1];
        }
      }
    }
  }

  lemma WithScoreCons(y: Lead, t: seq<Lead>, score: int)
    ensures WithScore([y] + t, score) ==
      (if EffectiveScore(y) == score then [y] else []) + WithScore(t, score)
  {
    assert ([y] + t)[1..] == t;
  }

  lemma InsertStable(x: Lead, s: seq<Lead>, order: SortOrder, rest: seq<Lead>)
    requires s != [] && Compare(x, s[0], order) > 0
    requires forall score :: WithScore(rest, score) == WithScore([x] + s[1..], score)
    ensures forall score :: WithScore([s[0]] + rest, score) == WithScore([x] + s, score)
  {
    assert EffectiveScore(x) != EffectiveScore(s[0]);
    forall score ensures WithScore([s[0]] + rest, score) == WithScore([x] + s, score) {
      var f0 := if EffectiveScore(s[0]) == score then [s[0]] else [];
      var fx := if EffectiveScore(x) == score then [x] else [];
      var tail := WithScore(s[1..], score);
      assert f0 == [] || fx == [];
      calc {
        WithScore([s[0]] + rest, score);
        { WithScoreCons(s[0], rest, score); }
        f0 + WithScore(rest, score);
        f0 + WithScore([x] + s[1..], score);
        { WithScoreCons(x, s[1..], score); }
        f0 + (fx + tail);
        fx + (f0 + tail);
        { assert s == [s[0]] + s[1..]; WithScoreCons(s[0], s[1..], score); }
        fx + WithScore(s, score);
        { WithScoreCons(x, s, score); }
        WithScore([x] + s, score);
      }
    }
  }

  lemma SortStepStable(leads: seq<Lead>, rest: seq<Lead>)
    requires leads != []
    requires forall score :: WithScore(rest, score) == WithScore(leads[1..], score)
    ensures forall score :: WithScore([leads[0]] + rest, score) == WithScore(leads, score)
  {
    forall score ensures WithScore([leads[0]] + rest, score) == WithScore(leads, score) {
      WithScoreCons(leads[0], rest, score);
      assert leads == [leads[0]] + leads[1..];
      WithScoreCons(leads[0], leads[1..], score);
    }
  }

  /** `sortedLeads`: a sorted copy of `leads`. It is a permutation of the
      leads, it is in comparator order, and it is stable: the leads of any one
      effective score keep the order they had in `leads`. */
  function SortLeads(leads: seq<Lead>, order: SortOrder): (r: seq<Lead>)
    ensures |r| == |leads| && multiset(r) == multiset(leads)
    ensures SortedBy(r, order)
    ensures forall score :: WithScore(r, score) == WithScore(leads, score)
  {
    if leads == [] then []
    else
      var rest := SortLeads(leads[1..], order);
      assert leads == [leads[0]] + leads[1..];
      SortStepStable(leads, rest);
      Insert(leads[0], rest, order)
  }

  /** A lead is among the leads of a score exactly when it is in the
      sequence and has that score. */
  lemma {:induction false} WithScoreMember(s: seq<Lead>, score: int, x: Lead)
    ensures x in WithScore(s, score) <==> x in s && EffectiveScore(x) == score
  {
    if s != [] {
      WithScoreMember(s[1..], score, x);
      WithScoreCons(s[0], s[1..], score);
      assert s == [s[0]] + s[1..];
    }
  }

  lemma SortedTail(s: seq<Lead>, order: SortOrder)
    requires s != [] && SortedBy(s, order)
    ensures SortedBy(s[1..], order)
    ensures forall y :: y in s[1..] ==> Compare(s[0], y, order) <= 0
  {
    forall i, j | 0 <= i < j < |s[1..]| ensures Compare(s[1..][i], s[1..][j], order) <= 0 {
      assert s[1..][i] == s[i + 1] && s[1..][j] == s[j + 1];
    }
    forall y | y in s[1..] ensures Compare(s[0], y, order) <= 0 {
      var k :| 0 <= k < |s[1..]| && s[1..][k] == y;
      assert s[k + 1] == y;
    }
  }

  /** In a sorted sequence the first lead compares at or below every lead. */
  lemma HeadFirst(r: seq<Lead>, order: SortOrder, y: Lead)
    requires r != [] && SortedBy(r, order) && y in r
    ensures Compare(r[0], y, order) <= 0
  {
    var k :| 0 <= k < |r| && r[k] == y;
    if k > 0 {
      assert Compare(r[0], r[k], order) <= 0;
    }
  }

  /** Two sorted sequences with the same leads of every score start with the
      same lead: the first lead of either has the best score of both, and
      among the leads of that score it comes first in both. */
  lemma SortedHeadsEqual(r1: seq<Lead>, r2: seq<Lead>, order: SortOrder)
    requires r1 != [] && r2 != []
    requires SortedBy(r1, order) && SortedBy(r2, order)
    requires forall score :: WithScore(r1, score) == WithScore(r2, score)
    ensures r1[0] == r2[0]
  {
    var a, b := r1[0], r2[0];
    WithScoreMember(r2, EffectiveScore(b), b);
    WithScoreMember(r1, EffectiveScore(b), b);
    HeadFirst(r1, order, b);
    WithScoreMember(r1, EffectiveScore(a), a);
    WithScoreMember(r2, EffectiveScore(a), a);
    HeadFirst(r2, order, a);
    var k := EffectiveScore(a);
    assert EffectiveScore(b) == k;
    WithScoreFirst(r1);
    WithScoreFirst(r2);
    assert WithScore(r1, k) == WithScore(r2, k);
  }

  /** The first lead of a sequence heads the leads of its own score. */
  lemma WithScoreFirst(r: seq<Lead>)
    requires r != []
    ensures WithScore(r, EffectiveScore(r[0])) != []
    ensures WithScore(r, EffectiveScore(r[0]))[0] == r[0]
  {
  }

  /** Dropping a common first lead keeps the leads of every score equal. */
  lemma WithScoreDropHead(a: Lead, t1: seq<Lead>, t2: seq<Lead>)
    requires forall score :: WithScore([a] + t1, score) == WithScore([a] + t2, score)
    ensures forall score :: WithScore(t1, score) == WithScore(t2, score)
  {
    forall score ensures WithScore(t1, score) == WithScore(t2, score) {
      WithScoreCons(a, t1, score);
      WithScoreCons(a, t2, score);
      var f := if EffectiveScore(a) == score then [a] else [];
      var w1, w2 := WithScore(t1, score), WithScore(t2, score);
      assert f + w1 == WithScore([a] + t1, score) == WithScore([a] + t2, score) == f + w2;
      assert w1 == (f + w1)[|f|..] && w2 == (f + w2)[|f|..];
    }
  }

  /** Sortedness and stability determine the result: two sequences in
      comparator order that hold the same leads of every score, in the same
      order, are equal. */
  lemma {:induction false} SortedStableUnique(r1: seq<Lead>, r2: seq<Lead>, order: SortOrder)
    requires SortedBy(r1, order) && SortedBy(r2, order)
    requires forall score :: WithScore(r1, score) == WithScore(r2, score)
    ensures r1 == r2
    decreases |r1| + |r2|
  {
    if r1 == [] && r2 == [] {
    } else if r1 == [] || r2 == [] {
      var y := if r1 == [] then r2[0] else r1[0];
      var k := EffectiveScore(y);
      WithScoreMember(r1, k, y);
      WithScoreMember(r2, k, y);
    } else {
      SortedHeadsEqual(r1, r2, order);
      var a := r1[0];
      assert r1 == [a] + r1[1..] && r2 == [a] + r2[1..];
      WithScoreDropHead(a, r1[1..], r2[1..]);
      SortedTail(r1, order);
      SortedTail(r2, order);
      SortedStableUnique(r1[1..], r2[1..], order);
    }
  }

  /** `SortLeads` is the only arrangement of the leads that is in comparator
      order and stable. */
  lemma SortLeadsUnique(leads: seq<Lead>, order: SortOrder, r: seq<Lead>)
    requires SortedBy(r, order)
    requires forall score :: WithScore(r, score) == WithScore(leads, score)
    ensures r == SortLeads(leads, order)
  {
    SortedStableUnique(r, SortLeads(leads, order), order);
  }

  /** In descending order the effective scores never increase along the
      sorted leads; in ascending order they never decrease. */
  lemma SortedScores(leads: seq<Lead>, order: SortOrder, i: nat, j: nat)
    requires i <= j < |leads|
    ensures var r := SortLeads(leads, order);
      |r| == |leads| &&
      (order == Desc ==> EffectiveScore(r[i]) >= EffectiveScore(r[j])) &&
      (order == Asc ==> EffectiveScore(r[i]) <= EffectiveScore(r[j]))
  {
    var r := SortLeads(leads, order);
    if i < j {
      assert Compare(r[i], r[j], order) <= 0;
    }
  }

  /** A lead without an inference sorts as a lead of score 0: in descending
      order every lead with a positive score comes before it, in ascending
      order every lead with a negative score does. */
  lemma NoInferenceSortsAsZero(leads: seq<Lead>, order: SortOrder, i: nat, j: nat)
    requires i < |leads| && j < |leads|
    ensures var r := SortLeads(leads, order);
      r[i].leadInference.None? &&
      (if order == Desc then EffectiveScore(r[j]) > 0 else EffectiveScore(r[j]) < 0)
      ==> j < i
  {
    var r := SortLeads(leads, order);
    if r[i].leadInference.None? && i <= j {
      SortedScores(leads, order, i, j);
    }
  }

  /** Toggling the order twice renders the leads as before. */
  lemma ToggleTwiceSameOrder(leads: seq<Lead>, order: SortOrder)
    ensures SortLeads(leads, Toggled(Toggled(order))) == SortLeads(leads, order)
  {
    ToggledInvolution(order);
  }

  /** Two leads of different scores have the same leads of every score in
      either order. */
  lemma SwapWithScore(x: Lead, y: Lead)
    requires EffectiveScore(x) != EffectiveScore(y)
    ensures forall score :: WithScore([x, y], score) == WithScore([y, x], score)
  {
    forall score ensures WithScore([x, y], score) == WithScore([y, x], score) {
      assert [x, y] == [x] + [y] && [y, x] == [y] + [x];
      WithScoreCons(x, [y], score);
      WithScoreCons(y, [x], score);
      assert [x] == [x] + [] && [y] == [y] + [];
      WithScoreCons(x, [], score);
      WithScoreCons(y, [], score);
    }
  }

  /** Two leads scored 90 and 40 render 90 first when descending and 40
      first when ascending. */
  lemma TwoLeadsScenario(high: Lead, low: Lead)
    requires EffectiveScore(high) == 90 && EffectiveScore(low) == 40
    ensures SortLeads([high, low], Desc) == [high, low]
    ensures SortLeads([high, low], Asc) == [low, high]
    ensures SortLeads([low, high], Desc) == [high, low]
  {
    SwapWithScore(low, high);
    assert SortedBy([high, low], Desc) && SortedBy([low, high], Asc);
    SortLeadsUnique([high, low], Desc, [high, low]);
    SortLeadsUnique([high, low], Asc, [low, high]);
    SortLeadsUnique([low, high], Desc, [high, low]);
  }

  // ---------------------------------------------------------------------------
  // Rendering

  /** The card key `${lead.userid}-${index}`. */
  function CardKey(userid: string, index: nat): string {
    userid + "-" + NatToString(index)
  }

  /** Reads the index back out of a card key: the digits after its last '-'.
      The userid may hold '-' itself; the digits of the index never do. */
  function KeyIndex(key: string): Option<nat> {
    match LastIndexOf(key, '-')
    case None => None
    case Some(k) => ParseNat(key[k + 1..])
  }

  lemma KeyIndexOfCardKey(userid: string, index: nat)
    ensures KeyIndex(CardKey(userid, index)) == Some(index)
  {
    var digits := NatToString(index);
    var key := CardKey(userid, index);
    var dash := |userid|;
    assert key[dash] == '-';
    assert forall k :: dash < k < |key| ==> key[k] == digits[k - dash - 1] && key[k] != '-';
    assert LastIndexOf(key, '-') == Some(dash);
    assert key[dash + 1..] == digits;
    ParseNatToString(index);
  }

  /** Cards at different positions get different keys, whatever their userids. */
  lemma CardKeysDistinct(u1: string, i: nat, u2: string, j: nat)
    requires i != j
    ensures CardKey(u1, i) != CardKey(u2, j)
  {
    KeyIndexOfCardKey(u1, i);
    KeyIndexOfCardKey(u2, j);
  }

  /** The header's count: "1 lead found", otherwise "<n> leads found". */
  function CountLabel(n: nat): string {
    NatToString(n) + " lead" + (if n != 1 then "s" else "") + " found"
  }

  /** The count label starts with the number of leads and says "lead" in the
      singular exactly when there is one. */
  lemma CountLabelWords(n: nat)
    ensures var text, digits := CountLabel(n), NatToString(n);
      |digits| < |text| && ParseNat(text[..|digits|]) == Some(n) &&
      (text[|digits|..] == " lead found" <==> n == 1) &&
      (text[|digits|..] == " leads found" <==> n != 1)
  {
    var text, digits := CountLabel(n), NatToString(n);
    var words := " lead" + (if n != 1 then "s" else "") + " found";
    assert text == digits + words;
    assert text[..|digits|] == digits && text[|digits|..] == words;
    assert |" lead found"| == 11 && |" leads found"| == 12;
    if n == 1 {
      assert words == " lead found";
    } else {
      assert words == " leads found";
    }
    ParseNatToString(n);
  }

  datatype KeyedCard = KeyedCard(key: string, card: LeadCard.CardView)

  /** The content under the header: the "No Leads Found" notice or the grid. */
  datatype Content = EmptyState | Grid(cards: seq<KeyedCard>)

  /** What the dashboard renders. */
  datatype View =
    | LoadingView
    | ErrorView(message: string)
    | MainView(countLabel: string, order: SortOrder, content: Content)

  /** The keyed cards of the grid, in sorted order. */
  function GridCards(leads: seq<Lead>, order: SortOrder): seq<KeyedCard> {
    var sorted := SortLeads(leads, order);
    seq(|sorted|, i requires 0 <= i < |sorted| =>
      KeyedCard(CardKey(sorted[i].userid, i), LeadCard.RenderCard(sorted[i])))
  }

  /** JavaScript truthiness of the `error` state, a string or null. */
  predicate ErrorIsSet(error: Option<string>) {
    error.Some? && error.value != []
  }

  /** The render function: the spinner while loading, else the error screen
      when an error is set, else the header over the notice or the grid. */
  function SelectView(leads: seq<Lead>, loading: bool, error: Option<string>, order: SortOrder): View {
    if loading then LoadingView
    else if ErrorIsSet(error) then ErrorView(error.value)
    else MainView(CountLabel(|leads|), order,
                  if |leads| == 0 then EmptyState else Grid(GridCards(leads, order)))
  }

  /** Loading wins over an error, an error over the list, and the empty
      notice appears exactly when nothing is loading or failed and there are
      no leads; otherwise the grid shows every lead once, in sorted order. */
  lemma ViewPriority(leads: seq<Lead>, loading: bool, error: Option<string>, order: SortOrder)
    ensures var v := SelectView(leads, loading, error, order);
      (v.LoadingView? <==> loading) &&
      (v.ErrorView? <==> !loading && ErrorIsSet(error)) &&
      (v.MainView? && v.content.EmptyState? <==> !loading && !ErrorIsSet(error) && |leads| == 0) &&
      (v.MainView? && v.content.Grid? <==> !loading && !ErrorIsSet(error) && |leads| > 0)
    ensures var v := SelectView(leads, loading, error, order);
      v.MainView? && v.content.Grid? ==>
        |v.content.cards| == |leads| &&
        forall i :: 0 <= i < |v.content.cards| ==>
          v.content.cards[i].card == LeadCard.RenderCard(SortLeads(leads, order)[i]) &&
          v.content.cards[i].key == CardKey(SortLeads(leads, order)[i].userid, i)
    ensures var v := SelectView(leads, loading, error, order);
      (v.ErrorView? ==> v.message == error.value) &&
      (v.MainView? ==> v.countLabel == CountLabel(|leads|) && v.order == order)
  {
    var sorted := SortLeads(leads, order);
    assert |sorted| == |multiset(sorted)| == |leads|;
  }

  /** The grid's keys are pairwise distinct. */
  lemma GridKeysDistinct(leads: seq<Lead>, order: SortOrder, i: nat, j: nat)
    requires i < j < |GridCards(leads, order)|
    ensures GridCards(leads, order)[i].key != GridCards(leads, order)[j].key
  {
    var sorted := SortLeads(leads, order);
    CardKeysDistinct(sorted[i].userid, i, sorted[j].userid, j);
  }

  /** A fetch that returns no leads shows the empty notice, not an error. */
  lemma EmptyFetchScenario(order: SortOrder)
    ensures SelectView([], false, None, order) == MainView("0 leads found", order, EmptyState)
  {
    assert NatToString(0) == "0";
  }

  // ---------------------------------------------------------------------------
  // State

  /** The message `loadLeads` stores when the fetch fails. */
  const LoadErrorMessage := "Failed to load leads. Please check your backend URL configuration."

  /** How the awaited `fetchLeads()` settled: its data, or a rejection (HTTP
      status, network failure or malformed JSON alike). */
  datatype FetchOutcome = Fetched(data: seq<Lead>) | FetchFailed

  /** The dashboard's four pieces of React state. */
  class DashboardState {
    var leads: seq<Lead>
    var loading: bool
    var error: Option<string>
    var sortOrder: SortOrder

    /** The only error ever stored is the load failure message. */
    ghost predicate Valid()
      reads this
    {
      error == None || error == Some(LoadErrorMessage)
    }

    /** The initial state: no leads, loading, no error, descending. */
    constructor ()
      ensures Valid()
      ensures leads == [] && loading && error == None && sortOrder == Desc
    {
      leads := [];
      loading := true;
      error := None;
      sortOrder := Desc;
    }

    /** The screen for the current state. */
    function View(): View
      reads this
    {
      SelectView(leads, loading, error, sortOrder)
    }

    /** `loadLeads` before its await: loading on, error cleared. */
    method BeginLoad()
      requires Valid()
      modifies this
      ensures Valid()
      ensures loading && error == None
      ensures leads == old(leads) && sortOrder == old(sortOrder)
      ensures View() == LoadingView
    {
      loading := true;
      error := None;
    }

    /** The fetch resolved: its data replaces the leads, then `finally`
      turns loading off. */
    method LoadSucceeded(data: seq<Lead>)
      requires Valid()
      modifies this
      ensures Valid()
      ensures leads == data && !loading
      ensures error == old(error) && sortOrder == old(sortOrder)
    {
      leads := data;
      loading := false;
    }

    /** The fetch rejected: the error message is set, the leads stay as they
      were, then `finally` turns loading off. */
    method LoadFailed()
      requires Valid()
      modifies this
      ensures Valid()
      ensures error == Some(LoadErrorMessage) && !loading
      ensures leads == old(leads) && sortOrder == old(sortOrder)
      ensures View() == ErrorView(LoadErrorMessage)
    {
      error := Some(LoadErrorMessage);
      loading := false;
    }

    /** One whole run of `loadLeads`, given how the fetch settles. */
    method LoadLeads(outcome: FetchOutcome)
      requires Valid()
      modifies this
      ensures Valid()
      ensures !loading && sortOrder == old(sortOrder)
      ensures outcome.Fetched? ==>
        leads == outcome.data && error == None &&
        View() == SelectView(outcome.data, false, None, sortOrder)
      ensures outcome.FetchFailed? ==>
        leads == old(leads) && error == Some(LoadErrorMessage) &&
        View() == ErrorView(LoadErrorMessage)
    {
      BeginLoad();
      match outcome
      case Fetched(data) => LoadSucceeded(data);
      case FetchFailed => LoadFailed();
    }

    /** `toggleSortOrder`: flips the order and touches nothing else. */
    method ToggleSortOrder()
      requires Valid()
      modifies this
      ensures Valid()
      ensures sortOrder == Toggled(old(sortOrder))
      ensures leads == old(leads) && loading == old(loading) && error == old(error)
    {
      sortOrder := Toggled(sortOrder);
    }
  }

  /** Under the class invariant the error screen shows exactly when an error
      is stored. */
  lemma ErrorViewWhenStored(st: DashboardState)
    requires st.Valid() && !st.loading
    ensures st.View().ErrorView? <==> st.error.Some?
  {
  }
}
