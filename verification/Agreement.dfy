/** Agreement between judges or repeated runs, and the nearest-rank percentile. */
module Agreement {
  import opened Common
  import opened Classification
  import opened Grades

  datatype Verdict = Pass | Fail | Inconclusive

  /** One verdict on one case by one judge or one run. */
  datatype Decision = Decision(caseId: Id, actor: Id, verdict: Verdict)

  // ----- what the loops compute -----

  function CaseOf(d: Decision): Id {
    d.caseId
  }

  function Group(entries: seq<Decision>, c: Id): seq<Decision> {
    GroupBy(entries, CaseOf, c)
  }

  function CaseIds(entries: seq<Decision>): seq<Id> {
    seq(|entries|, i requires 0 <= i < |entries| => entries[i].caseId)
  }

  /** The cases of the entries, in the order in which the dictionary meets them. */
  function Cases(entries: seq<Decision>): seq<Id> {
    FirstSeen(CaseIds(entries))
  }

  predicate Qualified(group: seq<Decision>) {
    |set d | d in group :: d.actor| >= 2
  }

  predicate Unanimous(group: seq<Decision>) {
    |set d | d in group :: d.verdict| == 1
  }

  function Agreeing(d: Decision, rest: seq<Decision>): nat {
    if rest == [] then 0 else (if d.verdict == rest[0].verdict then 1 else 0) + Agreeing(d, rest[1..])
  }

  function AgreeingPairs(group: seq<Decision>): nat {
    if group == [] then 0 else Agreeing(group[0], group[1..]) + AgreeingPairs(group[1..])
  }

  function Pairs(group: seq<Decision>): nat {
    if group == [] then 0 else |group| - 1 + Pairs(group[1..])
  }

  /** Totals over the qualified groups of the listed cases. */
  datatype Tally = Tally(cases: nat, agreeing: nat, pairs: nat, unanimous: nat)

  function TallyOf(entries: seq<Decision>, cases: seq<Id>): Tally {
    if cases == [] then Tally(0, 0, 0, 0)
    else
      var before := TallyOf(entries, cases[..|cases| - 1]);
      var group := Group(entries, cases[|cases| - 1]);
      if Qualified(group)
      then Tally(before.cases + 1, before.agreeing + AgreeingPairs(group), before.pairs + Pairs(group),
                 before.unanimous + if Unanimous(group) then 1 else 0)
      else before
  }

  // ----- _grouped_agreement -----

  datatype GroupReport = GroupReport(component: Component, unanimousRate: real, disagreements: seq<Id>)

  ghost predicate Grouped(entries: seq<Decision>, groups: map<Id, seq<Decision>>, cases: seq<Id>) {
    && cases == Cases(entries)
    && (forall c :: c in cases <==> c in groups)
    && (forall c :: c in groups ==> groups[c] == Group(entries, c) && groups[c] != [])
    && (forall d :: d in entries ==> d.caseId in groups)
  }

  lemma CasesAppend(entries: seq<Decision>, d: Decision)
    ensures Cases(entries + [d])
            == if d.caseId in Cases(entries) then Cases(entries) else Cases(entries) + [d.caseId]
  {
    assert CaseIds(entries + [d]) == CaseIds(entries) + [d.caseId];
    assert (CaseIds(entries) + [d.caseId])[..|entries|] == CaseIds(entries);
  }

  lemma GroupsAppend(entries: seq<Decision>, d: Decision)
    ensures forall c :: Group(entries + [d], c) == Group(entries, c) + (if d.caseId == c then [d] else [])
  {
    forall c ensures Group(entries + [d], c) == Group(entries, c) + (if d.caseId == c then [d] else []) {
      GroupByAppend(entries, CaseOf, c, d);
    }
  }

  /** What appending one entry does to the grouping dictionary. */
  lemma GroupedStep(entries: seq<Decision>, groups: map<Id, seq<Decision>>, cases: seq<Id>, d: Decision)
    requires Grouped(entries, groups, cases)
    ensures d.caseId in groups ==>
              Grouped(entries + [d], groups[d.caseId := groups[d.caseId] + [d]], cases)
    ensures d.caseId !in groups ==>
              Grouped(entries + [d], groups[d.caseId := [d]], cases + [d.caseId])
  {
    CasesAppend(entries, d);
    GroupsAppend(entries, d);
    if d.caseId !in groups {
      GroupByNothing(entries, CaseOf, d.caseId);
    }
    hide Cases, Group;
  }

  method GroupByCase(entries: seq<Decision>) returns (groups: map<Id, seq<Decision>>, cases: seq<Id>)
    ensures Grouped(entries, groups, cases)
  {
    groups, cases := map[], [];
    for k := 0 to |entries|
      invariant Grouped(entries[..k], groups, cases)
    {
      assert entries[..k + 1] == entries[..k] + [entries[k]];
      GroupedStep(entries[..k], groups, cases, entries[k]);
      var d := entries[k];
      if d.caseId !in groups {
        cases := cases + [d.caseId];
        groups := groups[d.caseId := [d]];
      } else {
        groups := groups[d.caseId := groups[d.caseId] + [d]];
      }
    }
    assert entries[..|entries|] == entries;
  }

  /** The loop over combinations(decisions, 2). */
  method CountPairs(group: seq<Decision>) returns (agreeing: nat, pairs: nat)
    ensures agreeing == AgreeingPairs(group) && pairs == Pairs(group)
  {
    agreeing, pairs := 0, 0;
    for i := 0 to |group|
      invariant agreeing + AgreeingPairs(group[i..]) == AgreeingPairs(group)
      invariant pairs + Pairs(group[i..]) == Pairs(group)
    {
      ghost var agreed, counted := agreeing, pairs;
      assert group[i..][0] == group[i] && group[i..][1..] == group[i + 1..];
      for j := i + 1 to |group|
        invariant agreeing + Agreeing(group[i], group[j..]) == agreed + Agreeing(group[i], group[i + 1..])
        invariant pairs + (|group| - j) == counted + (|group| - i - 1)
      {
        assert group[j..][0] == group[j] && group[j..][1..] == group[j + 1..];
        pairs := pairs + 1;
        if group[i].verdict == group[j].verdict {
          agreeing := agreeing + 1;
        }
      }
    }
  }

  /** The qualified cases without a single verdict, in the order given. */
  function Disagreeing(entries: seq<Decision>, cases: seq<Id>): seq<Id> {
    if cases == [] then []
    else
      var last := cases[|cases| - 1];
      var group := Group(entries, last);
      Disagreeing(entries, cases[..|cases| - 1]) + (if Qualified(group) && !Unanimous(group) then [last] else [])
  }

  lemma {:induction false} DisagreeingMeaning(entries: seq<Decision>, cases: seq<Id>)
    requires Distinct(cases)
    ensures Distinct(Disagreeing(entries, cases))
    ensures forall c :: c in Disagreeing(entries, cases)
              <==> c in cases && Qualified(Group(entries, c)) && !Unanimous(Group(entries, c))
  {
    hide Qualified, Unanimous, Group;
    if cases != [] {
      var init, last := cases[..|cases| - 1], cases[|cases| - 1];
      DisagreeingMeaning(entries, init);
      assert cases == init + [last];
    }
  }

  /** The loop over the qualified groups. */
  method TallyGroups(entries: seq<Decision>, groups: map<Id, seq<Decision>>, order: seq<Id>)
    returns (t: Tally, disagreements: seq<Id>)
    requires Grouped(entries, groups, order)
    ensures t == TallyOf(entries, order) && disagreements == Disagreeing(entries, order)
  {
    hide Qualified, Unanimous, Group;
    t, disagreements := Tally(0, 0, 0, 0), [];
    for k := 0 to |order|
      invariant t == TallyOf(entries, order[..k]) && disagreements == Disagreeing(entries, order[..k])
    {
      assert order[..k + 1][..k] == order[..k] && order[k] in order;
      var group := groups[order[k]];
      if Qualified(group) {
        var agreeing, pairs := CountPairs(group);
        if Unanimous(group) {
          t := t.(unanimous := t.unanimous + 1);
        } else {
          disagreements := disagreements + [order[k]];
        }
        t := t.(cases := t.cases + 1, agreeing := t.agreeing + agreeing, pairs := t.pairs + pairs);
      }
    }
    assert order[..|order|] == order;
  }

  method GroupedAgreement(entries: seq<Decision>) returns (r: GroupReport)
    ensures var t := TallyOf(entries, Cases(entries));
            && r.component == (if t.cases == 0 then NOTHING
                               else Component(true,
                                              map[PairwiseAgreement := Ratio(t.agreeing as real, t.pairs as real)]))
            && r.unanimousRate == Ratio(t.unanimous as real, t.cases as real)
    ensures Distinct(r.disagreements)
    ensures forall c :: c in r.disagreements
              <==> c in Cases(entries) && Qualified(Group(entries, c)) && !Unanimous(Group(entries, c))
    ensures AgreementHolds(r.component, entries)
    ensures IsShare(r.unanimousRate, |ContestedCases(entries) - Disputed(entries)|, |ContestedCases(entries)|)
    ensures SetOf(r.disagreements) == Disputed(entries)
  {
    hide AgreementHolds, IsShare, ContestedCases, Disputed, Ratio, TallyOf, Disagreeing, Qualified, Unanimous, Cases;
    hide Group;
    CasesAreNamed(entries);
    DisagreeingMeaning(entries, Cases(entries));
    AgreementByPairs(entries);
    DisputedByEntries(entries);
    var groups, order := GroupByCase(entries);
    var t, disagreements := TallyGroups(entries, groups, order);
    var component := if t.cases == 0 then NOTHING
                     else Component(true, map[PairwiseAgreement := Ratio(t.agreeing as real, t.pairs as real)]);
    r := GroupReport(component, Ratio(t.unanimous as real, t.cases as real), disagreements);
  }

  // ----- what agreement means -----

  lemma {:induction false} AgreeingBounds(d: Decision, rest: seq<Decision>)
    ensures Agreeing(d, rest) <= |rest|
    ensures Agreeing(d, rest) == |rest| <==> forall e :: e in rest ==> e.verdict == d.verdict
  {
    if rest != [] {
      AgreeingBounds(d, rest[1..]);
      assert rest == [rest[0]] + rest[1..];
      assert forall e :: e in rest <==> e == rest[0] || e in rest[1..];
    }
  }

  ghost predicate OneVerdict(group: seq<Decision>) {
    forall d, e :: d in group && e in group ==> d.verdict == e.verdict
  }

  /** All pairs of a group agree exactly when it holds one verdict. */
  lemma {:induction false} AllPairsAgree(group: seq<Decision>)
    ensures AgreeingPairs(group) <= Pairs(group)
    ensures AgreeingPairs(group) == Pairs(group) <==> OneVerdict(group)
  {
    if group != [] {
      AllPairsAgree(group[1..]);
      AgreeingBounds(group[0], group[1..]);
      assert group == [group[0]] + group[1..];
      assert forall e :: e in group <==> e == group[0] || e in group[1..];
    }
  }

  lemma UnanimousMeansOneVerdict(group: seq<Decision>)
    requires group != []
    ensures Unanimous(group) <==> OneVerdict(group)
  {
    var verdicts := set d | d in group :: d.verdict;
    assert group[0].verdict in verdicts;
    if OneVerdict(group) {
      assert verdicts == {group[0].verdict};
    }
    if |verdicts| == 1 {
      var v :| verdicts == {v} by {
        SingletonSet(verdicts, group[0].verdict);
      }
      forall d, e | d in group && e in group
        ensures d.verdict == e.verdict
      {
        assert d.verdict in verdicts && e.verdict in verdicts;
      }
    }
  }

  lemma SingletonSet<T>(s: set<T>, x: T)
    requires |s| == 1 && x in s
    ensures s == {x}
  {
    assert |s - {x}| == 0;
  }

  lemma FewActors(group: seq<Decision>)
    requires |group| <= 1
    ensures |set d | d in group :: d.actor| <= 1
  {
    var actors := set d | d in group :: d.actor;
    if group == [] {
      assert actors == {};
    } else {
      assert actors == {group[0].actor};
    }
  }

  lemma QualifiedHasPairs(group: seq<Decision>)
    requires Qualified(group)
    ensures Pairs(group) > 0 && group != []
  {
    if |group| <= 1 {
      FewActors(group);
    }
  }

  ghost predicate UnanimousIfQualified(entries: seq<Decision>, c: Id) {
    Qualified(Group(entries, c)) ==> Unanimous(Group(entries, c))
  }

  /** Two or more actors on the case mean a single verdict on it. */
  ghost predicate Settled(entries: seq<Decision>, c: Id) {
    Qualified(Group(entries, c)) ==> OneVerdict(Group(entries, c))
  }

  ghost predicate AllUnanimous(entries: seq<Decision>, cases: seq<Id>) {
    forall c :: c in cases ==> UnanimousIfQualified(entries, c)
  }

  lemma AllUnanimousStep(entries: seq<Decision>, cases: seq<Id>, last: Id)
    ensures AllUnanimous(entries, cases + [last])
            <==> AllUnanimous(entries, cases) && UnanimousIfQualified(entries, last)
  {
    assert forall c :: c in cases + [last] <==> c == last || c in cases;
  }

  lemma {:induction false} TallyBounds(entries: seq<Decision>, cases: seq<Id>)
    ensures var t := TallyOf(entries, cases);
            && t.agreeing <= t.pairs && t.unanimous <= t.cases && (t.cases > 0 ==> t.pairs > 0)
            && (t.cases == 0 ==> t.pairs == 0)
            && (t.agreeing == t.pairs <==> t.unanimous == t.cases)
            && (t.unanimous == t.cases <==> AllUnanimous(entries, cases))
  {
    if cases != [] {
      var init, last := cases[..|cases| - 1], cases[|cases| - 1];
      TallyBounds(entries, init);
      assert cases == init + [last];
      AllUnanimousStep(entries, init, last);
      var group := Group(entries, last);
      if Qualified(group) {
        QualifiedHasPairs(group);
        AllPairsAgree(group);
        UnanimousMeansOneVerdict(group);
      }
    }
  }

  lemma GroupedIsCase(entries: seq<Decision>, c: Id)
    requires Group(entries, c) != []
    ensures c in Cases(entries)
  {
    var d := Group(entries, c)[0];
    GroupByMembers(entries, CaseOf, c, d);
    var i :| 0 <= i < |entries| && entries[i] == d;
    assert CaseIds(entries)[i] == c;
    FirstSeenMeaning(CaseIds(entries));
  }

  lemma AllUnanimousMeaning(entries: seq<Decision>)
    ensures AllUnanimous(entries, Cases(entries)) <==> forall c :: Settled(entries, c)
  {
    forall c
      ensures UnanimousIfQualified(entries, c) <==> Settled(entries, c)
      ensures !Settled(entries, c) ==> c in Cases(entries)
    {
      if Qualified(Group(entries, c)) {
        QualifiedHasPairs(Group(entries, c));
        UnanimousMeansOneVerdict(Group(entries, c));
        GroupedIsCase(entries, c);
      }
    }
  }

  /** Pairwise agreement is a rate, and it is one exactly when every case with two or more actors
      received a single verdict. */
  lemma FullAgreementMeansUnanimous(entries: seq<Decision>)
    requires TallyOf(entries, Cases(entries)).cases > 0
    ensures var t := TallyOf(entries, Cases(entries));
            var rate := Ratio(t.agreeing as real, t.pairs as real);
            && 0.0 <= rate <= 1.0
            && (rate == 1.0 <==> Ratio(t.unanimous as real, t.cases as real) == 1.0)
            && (rate == 1.0
                <==> forall c :: Settled(entries, c))
  {
    var cases := Cases(entries);
    var t := TallyOf(entries, cases);
    TallyBounds(entries, cases);
    Quotient(t.agreeing as real, t.pairs as real);
    Quotient(t.unanimous as real, t.cases as real);
    AllUnanimousMeaning(entries);
  }

  // ----- _percentile -----

  function Insert(x: int, s: seq<int>): seq<int> {
    if s == [] || x <= s[0] then [x] + s else [s[0]] + Insert(x, s[1..])
  }

  function Sorted(s: seq<int>): (r: seq<int>)
    ensures |r| == |s|
  {
    if s == [] then [] else InsertGrows(s[0], Sorted(s[1..])); Insert(s[0], Sorted(s[1..]))
  }

  lemma {:induction false} InsertGrows(x: int, s: seq<int>)
    ensures |Insert(x, s)| == |s| + 1
  {
    if s != [] && x > s[0] {
      InsertGrows(x, s[1..]);
    }
  }

  ghost predicate Ordered(s: seq<int>) {
    forall i, j :: 0 <= i < j < |s| ==> s[i] <= s[j]
  }

  function AtMostCount(s: seq<int>, v: int): nat {
    if s == [] then 0 else (if s[0] <= v then 1 else 0) + AtMostCount(s[1..], v)
  }

  lemma {:induction false} InsertMeaning(x: int, s: seq<int>, v: int)
    requires Ordered(s)
    ensures Ordered(Insert(x, s))
    ensures AtMostCount(Insert(x, s), v) == AtMostCount(s, v) + (if x <= v then 1 else 0)
    ensures forall y :: y in Insert(x, s) <==> y == x || y in s
  {
    if s == [] {
    } else if x <= s[0] {
      assert ([x] + s)[1..] == s;
    } else {
      InsertMeaning(x, s[1..], v);
      var tail := Insert(x, s[1..]);
      assert Insert(x, s) == [s[0]] + tail && ([s[0]] + tail)[1..] == tail;
      assert s == [s[0]] + s[1..];
      hide Insert;
      forall i, j | 0 <= i < j < |[s[0]] + tail|
        ensures ([s[0]] + tail)[i] <= ([s[0]] + tail)[j]
      {
        assert ([s[0]] + tail)[j] == tail[j - 1] && tail[j - 1] in tail;
      }
    }
  }

  lemma {:induction false} SortedMeaning(s: seq<int>, v: int)
    ensures Ordered(Sorted(s)) && AtMostCount(Sorted(s), v) == AtMostCount(s, v)
    ensures forall y :: y in Sorted(s) <==> y in s
  {
    if s != [] {
      SortedMeaning(s[1..], v);
      InsertMeaning(s[0], Sorted(s[1..]), v);
      assert s == [s[0]] + s[1..];
    }
  }

  /** Nearest rank: `percent` of a hundred, as in 50 or 95. */
  function Percentile(values: seq<int>, percent: nat): int
    requires 0 < percent <= 100
  {
    if values == [] then 0
    else
      var rank := (|values| * percent + 99) / 100 - 1;
      RankInRange(|values|, percent);
      Sorted(values)[rank]
  }

  lemma ProductInRange(n: nat, percent: nat)
    requires 0 < percent <= 100 && n > 0
    ensures 0 < n * percent <= n * 100
  {
  }

  lemma RankInRange(n: nat, percent: nat)
    requires 0 < percent <= 100 && n > 0
    ensures var rank := (n * percent + 99) / 100 - 1;
            0 <= rank < n && rank * 100 < n * percent <= (rank + 1) * 100
  {
    ProductInRange(n, percent);
    CeilingOf(n * percent, n);
  }

  lemma CeilingOf(m: nat, n: nat)
    requires 0 < m <= n * 100
    ensures var rank := (m + 99) / 100 - 1;
            0 <= rank < n && rank * 100 < m <= (rank + 1) * 100
  {
  }

  lemma {:induction false} OrderedCount(s: seq<int>, i: nat, v: int)
    requires Ordered(s) && i < |s|
    ensures s[i] <= v ==> AtMostCount(s, v) >= i + 1
    ensures v < s[i] ==> AtMostCount(s, v) <= i
  {
    assert s == [s[0]] + s[1..];
    if i == 0 {
      if v < s[0] {
        NoneAtMost(s, v);
      }
    } else {
      OrderedCount(s[1..], i - 1, v);
    }
  }

  lemma {:induction false} NoneAtMost(s: seq<int>, v: int)
    requires forall i :: 0 <= i < |s| ==> v < s[i]
    ensures AtMostCount(s, v) == 0
  {
    if s != [] {
      NoneAtMost(s[1..], v);
    }
  }

  /** The percentile is the least of the values that at least that share of them does not exceed. */
  lemma PercentileMeaning(values: seq<int>, percent: nat, v: int)
    requires 0 < percent <= 100 && values != []
    ensures var p := Percentile(values, percent);
            && p in values
            && (p <= v <==> AtMostCount(values, v) * 100 >= |values| * percent)
  {
    var rank := (|values| * percent + 99) / 100 - 1;
    RankInRange(|values|, percent);
    SortedMeaning(values, v);
    OrderedCount(Sorted(values), rank, v);
    assert Sorted(values)[rank] in Sorted(values);
  }

  // ----- agreement, told by pairs of entries -----

  /** Two different actors decided on the case. */
  ghost predicate Contested(entries: seq<Decision>, c: Id) {
    exists i, j :: 0 <= i < |entries| && 0 <= j < |entries| && entries[i].caseId == c && entries[j].caseId == c
                   && entries[i].actor != entries[j].actor
  }

  /** The pairs of entries on one case, and those of them with the same verdict. */
  ghost function PairsOn(entries: seq<Decision>, c: Id): set<(nat, nat)> {
    set i: nat, j: nat | i < j < |entries| && entries[i].caseId == c && entries[j].caseId == c :: (i, j)
  }

  ghost function AgreedOn(entries: seq<Decision>, c: Id): set<(nat, nat)> {
    set i: nat, j: nat | i < j < |entries| && entries[i].caseId == c && entries[j].caseId == c
                         && entries[i].verdict == entries[j].verdict :: (i, j)
  }

  /** The pairs of entries on contested cases. */
  ghost function ComparedPairs(entries: seq<Decision>): set<(nat, nat)> {
    set i: nat, j: nat | i < j < |entries| && entries[i].caseId == entries[j].caseId
                         && Contested(entries, entries[i].caseId) :: (i, j)
  }

  ghost function AgreedPairs(entries: seq<Decision>): set<(nat, nat)> {
    set i: nat, j: nat | i < j < |entries| && entries[i].caseId == entries[j].caseId
                         && entries[i].verdict == entries[j].verdict
                         && Contested(entries, entries[i].caseId) :: (i, j)
  }

  ghost function ContestedCases(entries: seq<Decision>): set<Id> {
    set d | d in entries && Contested(entries, d.caseId) :: d.caseId
  }

  /** The contested cases on which two entries differ. */
  ghost function Disputed(entries: seq<Decision>): set<Id> {
    set d | d in entries && Contested(entries, d.caseId) && !SingleVerdict(entries, d.caseId) :: d.caseId
  }

  ghost predicate SingleVerdict(entries: seq<Decision>, c: Id) {
    forall i, j :: 0 <= i < |entries| && 0 <= j < |entries| && entries[i].caseId == c && entries[j].caseId == c
                   ==> entries[i].verdict == entries[j].verdict
  }

  /** Entries on a case, and those of them with a verdict. */
  ghost function EntriesOn(entries: seq<Decision>, c: Id): set<nat> {
    set i: nat | i < |entries| && entries[i].caseId == c
  }

  ghost function EntriesFor(entries: seq<Decision>, c: Id, v: Verdict): set<nat> {
    set i: nat | i < |entries| && entries[i].caseId == c && entries[i].verdict == v
  }

  lemma {:induction false} GroupCounts(entries: seq<Decision>, c: Id, d: Decision)
    ensures |Group(entries, c)| == |EntriesOn(entries, c)|
    ensures Agreeing(d, Group(entries, c)) == |EntriesFor(entries, c, d.verdict)|
    decreases |entries|
  {
    if entries == [] {
      assert EntriesOn(entries, c) == {} && EntriesFor(entries, c, d.verdict) == {};
    } else {
      var n: nat := |entries| - 1;
      var init, last := entries[..n], entries[n];
      assert entries == init + [last];
      GroupCounts(init, c, d);
      GroupByAppend(init, CaseOf, c, last);
      assert last.caseId == c ==> Group(entries, c) == Group(init, c) + [last];
      assert last.caseId != c ==> Group(entries, c) == Group(init, c);
      AgreeingAppend(d, Group(init, c), last);
      hide Group, Agreeing;
      OneMorePosition(EntriesOn(init, c), EntriesOn(entries, c), n, last.caseId == c);
      OneMorePosition(EntriesFor(init, c, d.verdict), EntriesFor(entries, c, d.verdict), n,
                      last.caseId == c && last.verdict == d.verdict);
    }
  }

  lemma {:induction false} AgreeingAppend(d: Decision, group: seq<Decision>, last: Decision)
    ensures Agreeing(d, group + [last]) == Agreeing(d, group) + (if last.verdict == d.verdict then 1 else 0)
  {
    if group == [] {
      assert group + [last] == [last] && [last][1..] == [];
    } else {
      assert (group + [last])[1..] == group[1..] + [last];
      AgreeingAppend(d, group[1..], last);
    }
  }

  lemma {:induction false} PairsAppend(group: seq<Decision>, last: Decision)
    ensures Pairs(group + [last]) == Pairs(group) + |group|
    ensures AgreeingPairs(group + [last]) == AgreeingPairs(group) + Agreeing(last, group)
  {
    if group == [] {
      assert group + [last] == [last] && [last][1..] == [];
    } else {
      assert (group + [last])[1..] == group[1..] + [last];
      PairsAppend(group[1..], last);
      AgreeingAppend(group[0], group[1..], last);
    }
  }

  /** Each of the partners with `n`. */
  ghost function Paired(partners: set<nat>, n: nat): set<(nat, nat)> {
    set i | i in partners :: (i, n)
  }

  /** The pairs that end in the last position. */
  lemma NewPairs(before: set<(nat, nat)>, after: set<(nat, nat)>, n: nat, partners: set<nat>)
    requires forall i, j :: (i, j) in before ==> j < n
    requires forall i, j :: (i, j) in after <==> (i, j) in before || (j == n && i in partners)
    ensures |after| == |before| + |partners|
  {
    forall p
      ensures p in after <==> p in before || p in Paired(partners, n)
      ensures p in Paired(partners, n) ==> p !in before
    {
      assert p == (p.0, p.1);
    }
    Joined(before, after, Paired(partners, n), true);
    PairedUp(partners, n);
  }

  lemma {:induction false} PairedUp(partners: set<nat>, n: nat)
    ensures |Paired(partners, n)| == |partners|
    decreases |partners|
  {
    if partners == {} {
      assert Paired(partners, n) == {};
    } else {
      var x :| x in partners;
      PairedUp(partners - {x}, n);
      assert Paired(partners, n) == Paired(partners - {x}, n) + {(x, n)};
    }
  }

  lemma {:induction false} PairsAreCounted(entries: seq<Decision>, c: Id)
    ensures Pairs(Group(entries, c)) == |PairsOn(entries, c)|
    ensures AgreeingPairs(Group(entries, c)) == |AgreedOn(entries, c)|
    decreases |entries|
  {
    if entries == [] {
      assert PairsOn(entries, c) == {} && AgreedOn(entries, c) == {};
    } else {
      var init, last := entries[..|entries| - 1], entries[|entries| - 1];
      assert entries == init + [last];
      PairsAreCounted(init, c);
      PairsOfMore(init, last, c);
      PairsOnOfMore(init, last, c);
    }
  }

  lemma PairsOfMore(init: seq<Decision>, last: Decision, c: Id)
    ensures var group, group', now := Group(init, c), Group(init + [last], c), last.caseId == c;
            && Pairs(group') == Pairs(group) + (if now then |EntriesOn(init, c)| else 0)
            && AgreeingPairs(group')
               == AgreeingPairs(group) + (if now then |EntriesFor(init, c, last.verdict)| else 0)
  {
    GroupByAppend(init, CaseOf, c, last);
    assert Group(init + [last], c) == if last.caseId == c then Group(init, c) + [last] else Group(init, c);
    PairsAppend(Group(init, c), last);
    GroupCounts(init, c, last);
  }

  lemma PairsOnOfMore(init: seq<Decision>, last: Decision, c: Id)
    ensures var entries, now := init + [last], last.caseId == c;
            && |PairsOn(entries, c)| == |PairsOn(init, c)| + (if now then |EntriesOn(init, c)| else 0)
            && |AgreedOn(entries, c)|
               == |AgreedOn(init, c)| + (if now then |EntriesFor(init, c, last.verdict)| else 0)
  {
    var entries, n: nat := init + [last], |init|;
    NewPairs(PairsOn(init, c), PairsOn(entries, c), n, if last.caseId == c then EntriesOn(init, c) else {});
    NewPairs(AgreedOn(init, c), AgreedOn(entries, c), n,
             if last.caseId == c then EntriesFor(init, c, last.verdict) else {});
  }

  lemma QualifiedIsContested(entries: seq<Decision>, c: Id)
    ensures Qualified(Group(entries, c)) <==> Contested(entries, c)
  {
    var group := Group(entries, c);
    var actors := set d | d in group :: d.actor;
    forall d
      ensures d in group <==> d in entries && d.caseId == c
    {
      GroupByMembers(entries, CaseOf, c, d);
    }
    hide Group;
    if Contested(entries, c) {
      var i, j :| 0 <= i < |entries| && 0 <= j < |entries| && entries[i].caseId == c && entries[j].caseId == c
                  && entries[i].actor != entries[j].actor;
      assert entries[i] in group && entries[j] in group;
      TwoActors(actors, entries[i].actor, entries[j].actor);
    }
    if |actors| >= 2 {
      var a, b := PickTwo(actors);
      var d :| d in group && d.actor == a;
      var e :| e in group && e.actor == b;
      var i :| 0 <= i < |entries| && entries[i] == d;
      var j :| 0 <= j < |entries| && entries[j] == e;
    }
  }

  lemma TwoActors<T>(s: set<T>, a: T, b: T)
    requires a in s && b in s && a != b
    ensures |s| >= 2
  {
    SubsetCardinality({a, b}, s);
  }

  lemma PickTwo<T>(s: set<T>) returns (a: T, b: T)
    requires |s| >= 2
    ensures a in s && b in s && a != b
  {
    a :| a in s;
    assert |s - {a}| == |s| - 1;
    b :| b in s - {a};
  }

  ghost function ContestedIn(entries: seq<Decision>, cases: seq<Id>): set<Id> {
    set c | c in cases && Contested(entries, c)
  }

  ghost function SettledIn(entries: seq<Decision>, cases: seq<Id>): set<Id> {
    set c | c in cases && Contested(entries, c) && SingleVerdict(entries, c)
  }

  /** The pairs on the contested ones of the listed cases. */
  ghost function PairsWithin(entries: seq<Decision>, cases: seq<Id>): set<(nat, nat)> {
    set i: nat, j: nat | i < j < |entries| && entries[i].caseId == entries[j].caseId && entries[i].caseId in cases
                         && Contested(entries, entries[i].caseId) :: (i, j)
  }

  ghost function AgreedWithin(entries: seq<Decision>, cases: seq<Id>): set<(nat, nat)> {
    set i: nat, j: nat | i < j < |entries| && entries[i].caseId == entries[j].caseId && entries[i].caseId in cases
                         && entries[i].verdict == entries[j].verdict && Contested(entries, entries[i].caseId) :: (i, j)
  }

  lemma {:induction false} TallyCounts(entries: seq<Decision>, cases: seq<Id>)
    requires Distinct(cases)
    ensures var t := TallyOf(entries, cases);
            && t.cases == |ContestedIn(entries, cases)| && t.unanimous == |SettledIn(entries, cases)|
            && t.pairs == |PairsWithin(entries, cases)| && t.agreeing == |AgreedWithin(entries, cases)|
    decreases |cases|
  {
    hide TallyOf, PairsWithin, AgreedWithin, ContestedIn, SettledIn, PairsOn, AgreedOn, Contested, SingleVerdict;
    if cases == [] {
      NothingToTally(entries);
    } else {
      var init, last := cases[..|cases| - 1], cases[|cases| - 1];
      assert cases == init + [last];
      TallyCounts(entries, init);
      TallyOfMore(entries, init, last);
      LastCase(entries, init, last);
    }
  }

  lemma NothingToTally(entries: seq<Decision>)
    ensures TallyOf(entries, []) == Tally(0, 0, 0, 0)
    ensures PairsWithin(entries, []) == {} && AgreedWithin(entries, []) == {}
    ensures ContestedIn(entries, []) == {} && SettledIn(entries, []) == {}
  {
  }

  lemma TallyOfMore(entries: seq<Decision>, init: seq<Id>, last: Id)
    ensures var t, t', now := TallyOf(entries, init), TallyOf(entries, init + [last]), Contested(entries, last);
            && t'.cases == t.cases + (if now then 1 else 0)
            && t'.unanimous == t.unanimous + (if now && SingleVerdict(entries, last) then 1 else 0)
            && t'.pairs == t.pairs + (if now then |PairsOn(entries, last)| else 0)
            && t'.agreeing == t.agreeing + (if now then |AgreedOn(entries, last)| else 0)
  {
    hide Group, Pairs, AgreeingPairs, Qualified, Unanimous, PairsOn, AgreedOn, Contested, SingleVerdict;
    assert (init + [last])[..|init|] == init;
    QualifiedIsContested(entries, last);
    PairsAreCounted(entries, last);
    if Qualified(Group(entries, last)) {
      UnanimousIsSingle(entries, last);
    }
  }

  lemma LastCase(entries: seq<Decision>, init: seq<Id>, last: Id)
    requires last !in init
    ensures var cases, now := init + [last], Contested(entries, last);
            && |ContestedIn(entries, cases)| == |ContestedIn(entries, init)| + (if now then 1 else 0)
            && |SettledIn(entries, cases)|
               == |SettledIn(entries, init)| + (if now && SingleVerdict(entries, last) then 1 else 0)
            && |PairsWithin(entries, cases)|
               == |PairsWithin(entries, init)| + (if now then |PairsOn(entries, last)| else 0)
            && |AgreedWithin(entries, cases)|
               == |AgreedWithin(entries, init)| + (if now then |AgreedOn(entries, last)| else 0)
  {
    hide Contested, SingleVerdict, PairsWithin, AgreedWithin, PairsOn, AgreedOn;
    var cases, now := init + [last], Contested(entries, last);
    assert forall c :: c in cases <==> c in init || c == last;
    Joined(ContestedIn(entries, init), ContestedIn(entries, cases), {last}, now);
    Joined(SettledIn(entries, init), SettledIn(entries, cases), {last}, now && SingleVerdict(entries, last));
    LastCasePairs(entries, init, last);
    LastCaseAgreed(entries, init, last);
  }

  lemma Joined<T>(before: set<T>, after: set<T>, added: set<T>, now: bool)
    requires forall p :: p in after <==> p in before || (now && p in added)
    requires now ==> forall p :: p in added ==> p !in before
    ensures |after| == |before| + (if now then |added| else 0)
  {
    if now {
      assert after == before + added && before !! added;
    } else {
      assert after == before;
    }
  }

  lemma LastCasePairs(entries: seq<Decision>, init: seq<Id>, last: Id)
    requires last !in init
    ensures |PairsWithin(entries, init + [last])|
            == |PairsWithin(entries, init)| + (if Contested(entries, last) then |PairsOn(entries, last)| else 0)
  {
    hide Contested;
    var now := Contested(entries, last);
    forall p
      ensures p in PairsWithin(entries, init + [last])
              <==> p in PairsWithin(entries, init) || (now && p in PairsOn(entries, last))
      ensures now && p in PairsOn(entries, last) ==> p !in PairsWithin(entries, init)
    {
      assert p == (p.0, p.1);
    }
    Joined(PairsWithin(entries, init), PairsWithin(entries, init + [last]), PairsOn(entries, last), now);
  }

  lemma LastCaseAgreed(entries: seq<Decision>, init: seq<Id>, last: Id)
    requires last !in init
    ensures |AgreedWithin(entries, init + [last])|
            == |AgreedWithin(entries, init)| + (if Contested(entries, last) then |AgreedOn(entries, last)| else 0)
  {
    hide Contested;
    var now := Contested(entries, last);
    forall p
      ensures p in AgreedWithin(entries, init + [last])
              <==> p in AgreedWithin(entries, init) || (now && p in AgreedOn(entries, last))
      ensures now && p in AgreedOn(entries, last) ==> p !in AgreedWithin(entries, init)
    {
      assert p == (p.0, p.1);
    }
    Joined(AgreedWithin(entries, init), AgreedWithin(entries, init + [last]), AgreedOn(entries, last), now);
  }

  /** Agreement is the share of the pairs on contested cases that agree. */
  ghost predicate AgreementHolds(m: Component, entries: seq<Decision>) {
    && (m.measured <==> ContestedCases(entries) != {})
    && (m.measured ==> PairwiseAgreement in m.values
                       && IsShare(m.values[PairwiseAgreement], |AgreedPairs(entries)|, |ComparedPairs(entries)|))
  }

  lemma UnanimousIsSingle(entries: seq<Decision>, c: Id)
    requires Qualified(Group(entries, c))
    ensures Unanimous(Group(entries, c)) <==> SingleVerdict(entries, c)
  {
    var group := Group(entries, c);
    QualifiedHasPairs(group);
    UnanimousMeansOneVerdict(group);
    forall d
      ensures d in group <==> d in entries && d.caseId == c
    {
      GroupByMembers(entries, CaseOf, c, d);
    }
    hide Group, Unanimous, Qualified;
    if SingleVerdict(entries, c) {
      forall d, e | d in group && e in group
        ensures d.verdict == e.verdict
      {
        var i :| 0 <= i < |entries| && entries[i] == d;
        var j :| 0 <= j < |entries| && entries[j] == e;
      }
    }
  }

  lemma CasesAreNamed(entries: seq<Decision>)
    ensures forall c :: c in Cases(entries) <==> exists i :: 0 <= i < |entries| && entries[i].caseId == c
    ensures Distinct(Cases(entries))
  {
    FirstSeenMeaning(CaseIds(entries));
    assert forall i :: 0 <= i < |entries| ==> CaseIds(entries)[i] == entries[i].caseId;
    forall c
      ensures c in CaseIds(entries) <==> exists i :: 0 <= i < |entries| && entries[i].caseId == c
    {
      if i :| 0 <= i < |entries| && entries[i].caseId == c {
        assert CaseIds(entries)[i] == c;
      }
    }
  }

  lemma AllCasesCounted(entries: seq<Decision>)
    ensures var t := TallyOf(entries, Cases(entries));
            && t.cases == |ContestedCases(entries)|
            && t.pairs == |ComparedPairs(entries)| && t.agreeing == |AgreedPairs(entries)|
            && t.unanimous == |ContestedCases(entries) - Disputed(entries)|
  {
    CasesAreNamed(entries);
    TallyCounts(entries, Cases(entries));
    hide TallyOf, Cases, Contested, SingleVerdict;
    assert PairsWithin(entries, Cases(entries)) == ComparedPairs(entries);
    assert AgreedWithin(entries, Cases(entries)) == AgreedPairs(entries);
    ContestedAreCases(entries);
  }

  lemma ContestedAreCases(entries: seq<Decision>)
    ensures ContestedIn(entries, Cases(entries)) == ContestedCases(entries)
    ensures SettledIn(entries, Cases(entries)) == ContestedCases(entries) - Disputed(entries)
  {
    CasesAreNamed(entries);
    hide Cases, Contested, SingleVerdict;
    forall c
      ensures c in Cases(entries) <==> exists d :: d in entries && d.caseId == c
    {
      if i :| 0 <= i < |entries| && entries[i].caseId == c {
        assert entries[i] in entries;
      }
      if d :| d in entries && d.caseId == c {
        var i :| 0 <= i < |entries| && entries[i] == d;
      }
    }
  }

  lemma AgreementByPairs(entries: seq<Decision>)
    ensures var t := TallyOf(entries, Cases(entries));
            && AgreementHolds(if t.cases == 0 then NOTHING
                              else Component(true,
                                             map[PairwiseAgreement := Ratio(t.agreeing as real, t.pairs as real)]),
                              entries)
            && IsShare(Ratio(t.unanimous as real, t.cases as real), |ContestedCases(entries) - Disputed(entries)|,
                       |ContestedCases(entries)|)
  {
    hide TallyOf, Cases, ContestedCases, Disputed, ComparedPairs, AgreedPairs, Ratio, IsShare;
    var t := TallyOf(entries, Cases(entries));
    AllCasesCounted(entries);
    RatioIsShare(t.agreeing, t.pairs);
    RatioIsShare(t.unanimous, t.cases);
  }

  lemma DisputedByEntries(entries: seq<Decision>)
    ensures forall c :: c in Disputed(entries)
              <==> c in Cases(entries) && Qualified(Group(entries, c)) && !Unanimous(Group(entries, c))
  {
    ContestedAreCases(entries);
    hide Cases, Contested, SingleVerdict, Group;
    forall c
      ensures c in Disputed(entries)
              <==> c in Cases(entries) && Qualified(Group(entries, c)) && !Unanimous(Group(entries, c))
    {
      QualifiedIsContested(entries, c);
      if Qualified(Group(entries, c)) {
        UnanimousIsSingle(entries, c);
      }
      assert c in ContestedCases(entries) <==> c in Cases(entries) && Contested(entries, c);
      assert c in Disputed(entries) <==> c in ContestedCases(entries) && !SingleVerdict(entries, c);
    }
  }
}
