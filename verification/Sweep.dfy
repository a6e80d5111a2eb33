/** Conclusions of a fixed shared-seed sweep: resampled winners, their tally, and the
    conclusion drawn from it.  The drawn seeds are arbitrary inputs. */
module Sweep {
  import opened Options
  import opened Sums
  import opened Sorting
  import Evidence

  type Seed = Evidence.Seed

  /** Final objective of each trial by seed. */
  type Values = map<int, map<Seed, real>>

  datatype Score = Score(value: real, trial: int)

  datatype Token = Equivalent | Preferred(trial: int) | TopSet(trials: seq<int>) | Unresolved

  function Sign(mode: string): real { if mode == "max" then 1.0 else -1.0 }

  /** Seeds every trial completed; none when some trial completed nothing. */
  ghost predicate Common(values: Values, s: Seed) {
    forall t :: t in values ==> s in values[t]
  }

  /** A resample draws common seeds. */
  ghost predicate Drawable(values: Values, draw: seq<Seed>) {
    draw != [] && values != map[] && forall i :: 0 <= i < |draw| ==> Common(values, draw[i])
  }

  ghost predicate TrialsOf(trials: seq<int>, values: Values) {
    && (forall i, j :: 0 <= i < j < |trials| ==> trials[i] < trials[j])
    && (forall i :: 0 <= i < |trials| ==> trials[i] in values)
    && (forall t :: t in values ==> exists i :: 0 <= i < |trials| && trials[i] == t)
  }

  // ----- one resample -----

  predicate ByScore(x: Score, y: Score) { x.value < y.value || (x.value == y.value && x.trial <= y.trial) }

  predicate ByTrial(x: int, y: int) { x <= y }

  /** Whether every lookup of the draw is defined for the trial. */
  predicate Defined(values: Values, trial: int, draw: seq<Seed>) {
    trial in values && forall i :: 0 <= i < |draw| ==> draw[i] in values[trial]
  }

  function Drawn(values: Values, trial: int, draw: seq<Seed>): seq<real>
    requires Defined(values, trial, draw)
  {
    seq(|draw|, i requires 0 <= i < |draw| => values[trial][draw[i]])
  }

  function Scores(values: Values, trials: seq<int>, sign: real, draw: seq<Seed>): seq<Score>
    requires forall k :: 0 <= k < |trials| ==> Defined(values, trials[k], draw)
  {
    seq(|trials|, k requires 0 <= k < |trials| => Score(sign * Mean(Drawn(values, trials[k], draw)), trials[k]))
  }

  /** The trials whose score is within the margin of the best. */
  function Within(scores: seq<Score>, best: real, margin: real): seq<int> {
    if scores == [] then []
    else
      var last, rest := scores[|scores|-1], Within(scores[..|scores|-1], best, margin);
      if best - last.value <= margin then rest + [last.trial] else rest
  }

  const TOLERANCE: real := 0.000000000001

  predicate IsClose(x: real, y: real) { Abs(x - y) <= Max(TOLERANCE * Max(Abs(x), Abs(y)), TOLERANCE) }

  function TokenOf(ordered: seq<Score>, margin: Option<real>): Token
    requires ordered != []
  {
    var n := |ordered|;
    var winner := ordered[n-1];
    if margin.Some? then
      var top := Sorted(ByTrial, Within(ordered, winner.value, margin.value));
      if |top| == n then Equivalent else if |top| == 1 then Preferred(top[0]) else TopSet(top)
    else if n >= 2 && IsClose(winner.value, ordered[n-2].value) then Unresolved
    else Preferred(winner.trial)
  }

  /** What one draw yields: the winning trial and the token it is counted under. */
  ghost function Outcome(values: Values, trials: seq<int>, sign: real, margin: Option<real>, draw: seq<Seed>)
    : (int, Token)
  {
    if trials != [] && forall k :: 0 <= k < |trials| ==> Defined(values, trials[k], draw) then
      var ordered := Sorted(ByScore, Scores(values, trials, sign, draw));
      SortedIsSorted(ByScore, Scores(values, trials, sign, draw));
      (ordered[|ordered|-1].trial, TokenOf(ordered, margin))
    else (0, Unresolved)
  }

  ghost function Winners(values: Values, trials: seq<int>, sign: real, margin: Option<real>): seq<Seed> -> int {
    draw => Outcome(values, trials, sign, margin, draw).0
  }

  ghost function Tokens(values: Values, trials: seq<int>, sign: real, margin: Option<real>): seq<Seed> -> Token {
    draw => Outcome(values, trials, sign, margin, draw).1
  }

  lemma EveryLookupIsDefined(values: Values, trials: seq<int>, draw: seq<Seed>)
    requires TrialsOf(trials, values) && Drawable(values, draw)
    ensures trials != [] && forall k :: 0 <= k < |trials| ==> Defined(values, trials[k], draw)
  {
    forall k, i | 0 <= k < |trials| && 0 <= i < |draw| ensures draw[i] in values[trials[k]] {
      CommonAt(values, draw[i], trials[k]);
    }
    SomeTrial(trials, values);
  }

  lemma CommonAt(values: Values, s: Seed, t: int)
    requires Common(values, s) && t in values
    ensures s in values[t]
  {}

  lemma SomeTrial(trials: seq<int>, values: Values)
    requires TrialsOf(trials, values)
    ensures values != map[] ==> trials != []
  {
    if values != map[] {
      var t := AnyKey(values);
      assert exists i :: 0 <= i < |trials| && trials[i] == t;
    }
  }

  lemma AnyKey<K, V>(m: map<K, V>) returns (k: K)
    requires m != map[]
    ensures k in m
  {
    k :| k in m;
  }

  // ----- counting resamples -----

  ghost predicate Counts<T(!new)>(counts: map<T, nat>, outcomes: seq<T>) {
    forall x :: (x in outcomes ==> x in counts) && (x in counts ==> counts[x] == multiset(outcomes)[x])
  }

  function Bumped<T(==)>(counts: map<T, nat>, x: T): map<T, nat> {
    counts[x := (if x in counts then counts[x] else 0) + 1]
  }

  lemma CountsNext<T(!new)>(counts: map<T, nat>, outcomes: seq<T>, x: T)
    requires Counts(counts, outcomes)
    ensures Counts(Bumped(counts, x), outcomes + [x])
  {
    MultisetAppend(outcomes, x);
    if x !in counts {
      assert x !in multiset(outcomes);
    }
  }

  ghost function Total<T>(keys: seq<T>, outcomes: seq<T>): nat {
    if keys == [] then 0 else Total(keys[..|keys|-1], outcomes) + multiset(outcomes)[keys[|keys|-1]]
  }

  lemma {:induction false} TotalNext<T>(keys: seq<T>, outcomes: seq<T>, x: T)
    requires Distinct(keys)
    ensures Total(keys, outcomes + [x]) == Total(keys, outcomes) + (if x in keys then 1 else 0)
  {
    MultisetAppend(outcomes, x);
    if keys != [] {
      TotalNext(keys[..|keys|-1], outcomes, x);
      SplitLast(keys);
    }
  }

  lemma {:induction false} TotalOfNone<T>(keys: seq<T>)
    ensures Total(keys, []) == 0
  {
    if keys != [] {
      TotalOfNone(keys[..|keys|-1]);
    }
  }

  /** The counts over any list of the keys add up to the number of resamples. */
  lemma {:induction false} CountsTotal<T>(keys: seq<T>, outcomes: seq<T>)
    requires Distinct(keys) && forall i :: 0 <= i < |outcomes| ==> outcomes[i] in keys
    ensures Total(keys, outcomes) == |outcomes|
  {
    if outcomes == [] {
      TotalOfNone(keys);
    } else {
      var n := |outcomes| - 1;
      CountsTotal(keys, outcomes[..n]);
      SplitLast(outcomes);
      TotalNext(keys, outcomes[..n], outcomes[n]);
    }
  }

  /** At most one outcome holds a strict majority. */
  lemma {:induction false} MajorityIsUnique<T>(outcomes: seq<T>, a: T, b: T)
    requires a != b
    ensures multiset(outcomes)[a] + multiset(outcomes)[b] <= |outcomes|
  {
    if outcomes != [] {
      var n := |outcomes| - 1;
      MajorityIsUnique(outcomes[..n], a, b);
      SplitLast(outcomes);
      MultisetAppend(outcomes[..n], outcomes[n]);
    }
  }

  /** The resampling loop: each draw's means, their order, the winner's count and the
      conclusion's count. */
  method Resample(values: Values, trials: seq<int>, mode: string, margin: Option<real>, draws: seq<seq<Seed>>)
    returns (winnerCounts: map<int, nat>, conclusionCounts: map<Token, nat>)
    requires TrialsOf(trials, values)
    requires forall d :: 0 <= d < |draws| ==> Drawable(values, draws[d])
    ensures winnerCounts.Keys == (set t | t in trials)
    ensures Counts(winnerCounts, Map(Winners(values, trials, Sign(mode), margin), draws))
    ensures Counts(conclusionCounts, Map(Tokens(values, trials, Sign(mode), margin), draws))
  {
    var sign := Sign(mode);
    winnerCounts := map t | t in trials :: 0;
    conclusionCounts := map[];
    hide Tallied, Outcome, Map, Counts, Sorted, TokenOf;
    NothingTallied(values, trials, sign, margin, draws, winnerCounts);
    for d := 0 to |draws|
      invariant winnerCounts.Keys == (set t | t in trials)
      invariant Tallied(values, trials, sign, margin, draws[..d], winnerCounts, conclusionCounts)
    {
      EveryLookupIsDefined(values, trials, draws[d]);
      var orderedScores := Sorted(ByScore, Scores(values, trials, sign, draws[d]));
      WinnerIsATrial(values, trials, sign, draws[d]);
      TallyNext(values, trials, sign, margin, draws, d, winnerCounts, conclusionCounts);
      winnerCounts := Bumped(winnerCounts, orderedScores[|orderedScores|-1].trial);
      conclusionCounts := Bumped(conclusionCounts, TokenOf(orderedScores, margin));
    }
    AllTallied(values, trials, sign, margin, draws, winnerCounts, conclusionCounts);
  }

  ghost predicate Tallied(values: Values, trials: seq<int>, sign: real, margin: Option<real>, draws: seq<seq<Seed>>,
    winnerCounts: map<int, nat>, conclusionCounts: map<Token, nat>)
  {
    && Counts(winnerCounts, Map(Winners(values, trials, sign, margin), draws))
    && Counts(conclusionCounts, Map(Tokens(values, trials, sign, margin), draws))
  }

  lemma NothingTallied(values: Values, trials: seq<int>, sign: real, margin: Option<real>, draws: seq<seq<Seed>>,
      zeros: map<int, nat>)
    requires forall t :: t in zeros ==> zeros[t] == 0
    ensures Tallied(values, trials, sign, margin, draws[..0], zeros, map[])
  {}

  lemma TallyNext(values: Values, trials: seq<int>, sign: real, margin: Option<real>, draws: seq<seq<Seed>>, d: nat,
    winnerCounts: map<int, nat>, conclusionCounts: map<Token, nat>)
    requires d < |draws| && Tallied(values, trials, sign, margin, draws[..d], winnerCounts, conclusionCounts)
    requires trials != [] && forall k :: 0 <= k < |trials| ==> Defined(values, trials[k], draws[d])
    ensures var ordered := Sorted(ByScore, Scores(values, trials, sign, draws[d]));
      && ordered != []
      && Tallied(values, trials, sign, margin, draws[..d+1],
           Bumped(winnerCounts, ordered[|ordered|-1].trial), Bumped(conclusionCounts, TokenOf(ordered, margin)))
  {
    hide Winners, Tokens, Sorted, TokenOf, Map, Counts, Bumped, Scores, Defined;
    var winners, tokens := Winners(values, trials, sign, margin), Tokens(values, trials, sign, margin);
    var ordered := Sorted(ByScore, Scores(values, trials, sign, draws[d]));
    DrawTells(values, trials, sign, margin, draws[d]);
    MapNext(winners, draws, d);
    MapNext(tokens, draws, d);
    CountsNext(winnerCounts, Map(winners, draws[..d]), ordered[|ordered|-1].trial);
    CountsNext(conclusionCounts, Map(tokens, draws[..d]), TokenOf(ordered, margin));
  }

  /** One draw's winner and token are those of its sorted scores. */
  lemma DrawTells(values: Values, trials: seq<int>, sign: real, margin: Option<real>, draw: seq<Seed>)
    requires trials != [] && forall k :: 0 <= k < |trials| ==> Defined(values, trials[k], draw)
    ensures var ordered := Sorted(ByScore, Scores(values, trials, sign, draw));
      && ordered != [] && Winners(values, trials, sign, margin)(draw) == ordered[|ordered|-1].trial
      && Tokens(values, trials, sign, margin)(draw) == TokenOf(ordered, margin)
  {
    WinnerIsATrial(values, trials, sign, draw);
    hide Sorted, TokenOf;
  }

  lemma AllTallied(values: Values, trials: seq<int>, sign: real, margin: Option<real>, draws: seq<seq<Seed>>,
    winnerCounts: map<int, nat>, conclusionCounts: map<Token, nat>)
    requires Tallied(values, trials, sign, margin, draws[..|draws|], winnerCounts, conclusionCounts)
    ensures Counts(winnerCounts, Map(Winners(values, trials, sign, margin), draws))
    ensures Counts(conclusionCounts, Map(Tokens(values, trials, sign, margin), draws))
  {
    assert draws[..|draws|] == draws;
    hide Counts, Map;
  }

  lemma MapNext<S, T>(f: S -> T, xs: seq<S>, i: nat)
    requires i < |xs|
    ensures Map(f, xs[..i+1]) == Map(f, xs[..i]) + [f(xs[i])]
  {
    assert xs[..i+1][..i] == xs[..i];
  }

  lemma WinnerIsATrial(values: Values, trials: seq<int>, sign: real, draw: seq<Seed>)
    requires trials != [] && forall k :: 0 <= k < |trials| ==> Defined(values, trials[k], draw)
    ensures var ordered := Sorted(ByScore, Scores(values, trials, sign, draw));
      |ordered| == |trials| && ordered[|ordered|-1].trial in trials
  {
    var scores := Scores(values, trials, sign, draw);
    SortedIsSorted(ByScore, scores);
    var k := IndexOf(Sorted(ByScore, scores), scores, |trials| - 1);
    assert scores[k].trial == trials[k];
  }

  // ----- the conclusion -----

  datatype Conclusion = Conclusion(token: Token, trials: seq<int>, confidence: real)

  /** The trials a token names. */
  function Named(token: Token, trials: seq<int>): seq<int> {
    match token
    case Equivalent => trials
    case Preferred(t) => [t]
    case TopSet(ts) => ts
    case Unresolved => []
  }

  predicate Majority(outcomes: seq<Token>, token: Token) { 2 * multiset(outcomes)[token] > |outcomes| }

  /** The conclusion is the outcome of a strict majority of resamples, if there is one; its
      confidence is the fraction of resamples that gave it. */
  ghost predicate Concludes(outcomes: seq<Token>, trials: seq<int>, c: Conclusion) {
    && (c.token != Unresolved ==> Majority(outcomes, c.token))
    && (forall token :: token != Unresolved && Majority(outcomes, token) ==> c.token == token)
    && c.trials == Named(c.token, trials)
    && c.confidence == if outcomes == [] then 0.0 else multiset(outcomes)[c.token] as real / |outcomes| as real
  }

  /** The first most frequent token of the distribution, downgraded without a majority. */
  method Conclude(counts: map<Token, nat>, order: seq<Token>, trials: seq<int>, resamples: nat,
      ghost outcomes: seq<Token>)
    returns (c: Conclusion)
    requires |outcomes| == resamples && Counts(counts, outcomes)
    requires forall k :: 0 <= k < |order| ==> order[k] in counts
    requires forall token :: token in counts ==> exists k :: 0 <= k < |order| && order[k] == token
    ensures Concludes(outcomes, trials, c)
  {
    if resamples == 0 {
      return Conclusion(Unresolved, [], 0.0);
    }
    SomeOutcome(outcomes, counts, order);
    var modal := order[0];
    for k := 1 to |order|
      invariant modal in counts
      invariant forall j :: 0 <= j < k ==> counts[order[j]] <= counts[modal]
    {
      if counts[order[k]] > counts[modal] {
        modal := order[k];
      }
    }
    var probability := counts[modal] as real / resamples as real;
    HalfOf(counts[modal], resamples);
    ModalDecides(counts, order, outcomes, modal);
    hide Counts;
    if probability <= 0.5 || modal == Unresolved {
      var unresolved := if Unresolved in counts then counts[Unresolved] else 0;
      c := Conclusion(Unresolved, [], unresolved as real / resamples as real);
    } else {
      c := Conclusion(modal, Named(modal, trials), probability);
    }
  }

  lemma SomeOutcome(outcomes: seq<Token>, counts: map<Token, nat>, order: seq<Token>)
    requires outcomes != [] && Counts(counts, outcomes)
    requires forall token :: token in counts ==> exists k :: 0 <= k < |order| && order[k] == token
    ensures order != []
  {
    assert outcomes[0] in outcomes;
    var k :| 0 <= k < |order| && order[k] == outcomes[0];
  }

  lemma HalfOf(count: nat, n: nat)
    requires n > 0
    ensures count as real / n as real <= 0.5 <==> 2 * count <= n
  {
    var q := count as real / n as real;
    assert q * n as real == count as real;
    if q <= 0.5 {
      assert q * n as real <= 0.5 * n as real;
    } else {
      assert q * n as real > 0.5 * n as real;
    }
  }

  lemma ModalDecides(counts: map<Token, nat>, order: seq<Token>, outcomes: seq<Token>, modal: Token)
    requires Counts(counts, outcomes) && modal in counts
    requires forall k :: 0 <= k < |order| ==> order[k] in counts && counts[order[k]] <= counts[modal]
    requires forall token :: token in counts ==> exists k :: 0 <= k < |order| && order[k] == token
    ensures counts[modal] == multiset(outcomes)[modal]
    ensures Unresolved !in counts ==> multiset(outcomes)[Unresolved] == 0
    ensures forall token :: Majority(outcomes, token) ==> token == modal
  {
    forall token | Majority(outcomes, token) ensures token == modal {
      assert token in multiset(outcomes);
      assert token in outcomes;
      var k :| 0 <= k < |order| && order[k] == token;
      if token != modal {
        MajorityIsUnique(outcomes, token, modal);
      }
    }
    assert Unresolved in multiset(outcomes) ==> Unresolved in outcomes;
  }

  /** The counts determine the conclusion, whatever order the distribution is read in. */
  lemma ConclusionIsUnique(outcomes: seq<Token>, trials: seq<int>, c: Conclusion, d: Conclusion)
    requires Concludes(outcomes, trials, c) && Concludes(outcomes, trials, d)
    ensures c == d
  {
    hide Named;
    assert c.token != Unresolved ==> d.token == c.token;
    assert d.token != Unresolved ==> c.token == d.token;
  }

  lemma DrawnWinner(values: Values, trials: seq<int>, sign: real, margin: Option<real>, draw: seq<Seed>)
    requires TrialsOf(trials, values) && Drawable(values, draw)
    ensures Winners(values, trials, sign, margin)(draw) in trials
  {
    EveryLookupIsDefined(values, trials, draw);
    WinnerIsATrial(values, trials, sign, draw);
  }

  /** Winner counts over the trials, and conclusion counts over the distribution, each total
      the number of resamples. */
  lemma TotalsAreResamples(values: Values, trials: seq<int>, mode: string, margin: Option<real>, draws: seq<seq<Seed>>,
      order: seq<Token>)
    requires TrialsOf(trials, values) && forall d :: 0 <= d < |draws| ==> Drawable(values, draws[d])
    requires Distinct(order) && forall d :: 0 <= d < |draws| ==>
        Tokens(values, trials, Sign(mode), margin)(draws[d]) in order
    ensures Total(trials, Map(Winners(values, trials, Sign(mode), margin), draws)) == |draws|
    ensures Total(order, Map(Tokens(values, trials, Sign(mode), margin), draws)) == |draws|
  {
    var winners := Map(Winners(values, trials, Sign(mode), margin), draws);
    assert Distinct(trials);
    hide Map, Outcome, Tokens, Winners, Total, Drawable, TrialsOf, Sign;
    forall d | 0 <= d < |draws| ensures winners[d] in trials {
      DrawnWinner(values, trials, Sign(mode), margin, draws[d]);
    }
    CountsTotal(trials, winners);
    CountsTotal(order, Map(Tokens(values, trials, Sign(mode), margin), draws));
  }

  // ----- a preferred trial won -----

  lemma {:induction false} NoneWithin(scores: seq<Score>, best: real, margin: real)
    requires margin < 0.0 && forall i :: 0 <= i < |scores| ==> scores[i].value <= best
    ensures Within(scores, best, margin) == []
  {
    if scores != [] {
      NoneWithin(scores[..|scores|-1], best, margin);
    }
  }

  lemma PreferredIsWinner(ordered: seq<Score>, margin: Option<real>)
    requires ordered != [] && Ascending(ByScore, ordered) && TokenOf(ordered, margin).Preferred?
    ensures TokenOf(ordered, margin) == Preferred(ordered[|ordered|-1].trial)
  {
    if margin.Some? {
      var winner := ordered[|ordered|-1];
      var within := Within(ordered, winner.value, margin.value);
      SortedIsSorted(ByTrial, within);
      if margin.value < 0.0 {
        forall i | 0 <= i < |ordered| ensures ordered[i].value <= winner.value {
          assert i == |ordered| - 1 || ByScore(ordered[i], winner);
        }
        NoneWithin(ordered, winner.value, margin.value);
      }
      assert within[|within|-1] == winner.trial;
      assert |within| == 1;
    }
  }

  lemma {:induction false} WithinExactly(scores: seq<Score>, best: real, margin: real, t: int)
    ensures |Within(scores, best, margin)| <= |scores|
    ensures t in Within(scores, best, margin) <==>
        exists i :: 0 <= i < |scores| && scores[i].trial == t && best - scores[i].value <= margin
    ensures |Within(scores, best, margin)| == |scores| <==>
        forall i :: 0 <= i < |scores| ==> best - scores[i].value <= margin
  {
    if scores != [] {
      WithinExactly(scores[..|scores|-1], best, margin, t);
      SplitLast(scores);
    }
  }

  lemma {:induction false} NoneNear(scores: seq<Score>, best: real, margin: real)
    ensures Within(scores, best, margin) == [] <==> forall i :: 0 <= i < |scores| ==> best - scores[i].value > margin
  {
    if scores != [] {
      NoneNear(scores[..|scores|-1], best, margin);
    }
  }

  /** Exactly one score is near the best of an ascending list when the last one is and no other. */
  lemma OnlyWinner(scores: seq<Score>, best: real, margin: real)
    requires scores != [] && Ascending(ByScore, scores) && best == scores[|scores|-1].value
    ensures |Within(scores, best, margin)| == 1 <==>
        margin >= 0.0 && forall i :: 0 <= i < |scores| - 1 ==> best - scores[i].value > margin
  {
    var n := |scores| - 1;
    NoneNear(scores[..n], best, margin);
    if margin < 0.0 {
      NoneNear(scores, best, margin);
      assert forall i :: 0 <= i < n ==> ByScore(scores[i], scores[n]);
    }
  }

  /** The trials within the margin of the best score. */
  ghost predicate NearBest(ordered: seq<Score>, margin: real, t: int)
    requires ordered != []
  {
    exists i :: 0 <= i < |ordered| && ordered[i].trial == t && ordered[|ordered|-1].value - ordered[i].value <= margin
  }

  /** With a practical margin a resample is a tie of all trials, a preference for the winner, or
      an ascending list of exactly the trials near the best. */
  lemma TokenMeaning(ordered: seq<Score>, margin: real, t: int)
    requires ordered != [] && Ascending(ByScore, ordered)
    ensures var token, n := TokenOf(ordered, Some(margin)), |ordered|;
      && (token == Equivalent <==> forall i :: 0 <= i < n ==> ordered[n-1].value - ordered[i].value <= margin)
      && (token.Preferred? ==>
          n > 1 && (NearBest(ordered, margin, t) <==> t == ordered[n-1].trial) && token.trial == ordered[n-1].trial)
      && (token.TopSet? ==> Ascending(ByTrial, token.trials) && (t in token.trials <==> NearBest(ordered, margin, t)))
      && token != Unresolved
  {
    var best := ordered[|ordered|-1].value;
    var within := Within(ordered, best, margin);
    WithinExactly(ordered, best, margin, t);
    SortedIsSorted(ByTrial, within);
    SameMember(Sorted(ByTrial, within), within, t);
    hide Within, Sorted;
    if TokenOf(ordered, Some(margin)).Preferred? {
      PreferredIsWinner(ordered, Some(margin));
      SameMember(Sorted(ByTrial, within), within, ordered[|ordered|-1].trial);
    }
  }

  /** It is a preference exactly when the winner is near the best and no other of several trials is. */
  lemma PreferredExactly(ordered: seq<Score>, margin: real)
    requires ordered != [] && Ascending(ByScore, ordered)
    ensures var n := |ordered|;
      TokenOf(ordered, Some(margin)).Preferred? <==>
        n > 1 && margin >= 0.0 && forall i :: 0 <= i < n - 1 ==> ordered[n-1].value - ordered[i].value > margin
  {
    var best := ordered[|ordered|-1].value;
    OnlyWinner(ordered, best, margin);
    SortedIsSorted(ByTrial, Within(ordered, best, margin));
    hide Within, Sorted;
  }

  lemma SameMember<T>(xs: seq<T>, ys: seq<T>, x: T)
    requires multiset(xs) == multiset(ys)
    ensures x in xs <==> x in ys
  {
    assert x in xs <==> x in multiset(xs);
    assert x in ys <==> x in multiset(ys);
  }

  lemma {:induction false} CountBelow(tokens: seq<Token>, winners: seq<int>, t: int)
    requires |tokens| == |winners| && forall i :: 0 <= i < |tokens| && tokens[i] == Preferred(t) ==> winners[i] == t
    ensures multiset(tokens)[Preferred(t)] <= multiset(winners)[t]
  {
    if tokens != [] {
      var n := |tokens| - 1;
      CountBelow(tokens[..n], winners[..n], t);
      SplitLast(tokens);
      SplitLast(winners);
      MultisetAppend(tokens[..n], tokens[n]);
      MultisetAppend(winners[..n], winners[n]);
    }
  }

  lemma PreferredCount(values: Values, trials: seq<int>, sign: real, margin: Option<real>, draws: seq<seq<Seed>>,
      t: int)
    requires TrialsOf(trials, values) && forall d :: 0 <= d < |draws| ==> Drawable(values, draws[d])
    ensures multiset(Map(Tokens(values, trials, sign, margin), draws))[Preferred(t)]
      <= multiset(Map(Winners(values, trials, sign, margin), draws))[t]
  {
    hide Outcome, TrialsOf, Drawable, Map;
    var tokens, winners := Map(Tokens(values, trials, sign, margin), draws),
        Map(Winners(values, trials, sign, margin), draws);
    forall d | 0 <= d < |draws| && tokens[d] == Preferred(t) ensures winners[d] == t {
      PreferredOutcome(values, trials, sign, margin, draws[d]);
    }
    CountBelow(tokens, winners, t);
  }

  lemma PreferredOutcome(values: Values, trials: seq<int>, sign: real, margin: Option<real>, draw: seq<Seed>)
    requires TrialsOf(trials, values) && Drawable(values, draw)
    ensures var o := Outcome(values, trials, sign, margin, draw);
      o.1.Preferred? ==> o.1 == Preferred(o.0)
  {
    var ordered := OutcomeIs(values, trials, sign, margin, draw);
    hide Outcome, TokenOf, Ascending, TrialsOf, Drawable;
    if TokenOf(ordered, margin).Preferred? {
      PreferredIsWinner(ordered, margin);
    }
  }

  lemma OutcomeIs(values: Values, trials: seq<int>, sign: real, margin: Option<real>, draw: seq<Seed>)
      returns (ordered: seq<Score>)
    requires TrialsOf(trials, values) && Drawable(values, draw)
    ensures ordered != [] && Ascending(ByScore, ordered)
    ensures Outcome(values, trials, sign, margin, draw) == (ordered[|ordered|-1].trial, TokenOf(ordered, margin))
  {
    hide TokenOf, Sorted, Ascending;
    EveryLookupIsDefined(values, trials, draw);
    SortedIsSorted(ByScore, Scores(values, trials, sign, draw));
    WinnerIsATrial(values, trials, sign, draw);
    ordered := Sorted(ByScore, Scores(values, trials, sign, draw));
  }

  // ----- what a draw means -----

  /** The mean of a trial over a draw. */
  ghost function MeanOf(values: Values, trial: int, draw: seq<Seed>): real {
    if Defined(values, trial, draw) then Mean(Drawn(values, trial, draw)) else 0.0
  }

  /** x is better than y in the direction of the objective. */
  ghost predicate Better(mode: string, x: real, y: real) { if mode == "max" then x > y else x < y }

  /** A mean counted in the direction of the objective. */
  ghost function Towards(mode: string, x: real): real { if mode == "max" then x else -x }

  /** The winner of a draw has a best mean in the objective's own direction, and the greatest trial id
      among the best. */
  lemma WinnerIsBest(values: Values, trials: seq<int>, mode: string, margin: Option<real>, draw: seq<Seed>, t: int)
    requires TrialsOf(trials, values) && Drawable(values, draw) && t in trials
    ensures var winner := Winners(values, trials, Sign(mode), margin)(draw);
      && winner in trials && !Better(mode, MeanOf(values, t, draw), MeanOf(values, winner, draw))
      && (MeanOf(values, t, draw) == MeanOf(values, winner, draw) ==> t <= winner)
  {
    var scores := DrawScores(values, trials, mode, draw);
    var ordered := Sorted(ByScore, scores);
    var k :| 0 <= k < |trials| && trials[k] == t;
    var j := IndexOf(scores, ordered, k);
    var w := IndexOf(ordered, scores, |ordered| - 1);
    assert j < |ordered| - 1 ==> ByScore(ordered[j], ordered[|ordered| - 1]);
    hide Sorted, Drawn, Mean, Defined, TokenOf, TrialsOf, Drawable;
  }

  lemma DrawScores(values: Values, trials: seq<int>, mode: string, draw: seq<Seed>) returns (scores: seq<Score>)
    requires TrialsOf(trials, values) && Drawable(values, draw)
    ensures trials != [] && |scores| == |trials|
    ensures forall k :: 0 <= k < |trials| ==>
      scores[k] == Score(Towards(mode, MeanOf(values, trials[k], draw)), trials[k])
    ensures var ordered := Sorted(ByScore, scores);
      && |ordered| == |scores| && multiset(ordered) == multiset(scores) && Ascending(ByScore, ordered)
      && forall margin :: Outcome(values, trials, Sign(mode), margin, draw)
                          == (ordered[|ordered|-1].trial, TokenOf(ordered, margin))
  {
    EveryLookupIsDefined(values, trials, draw);
    scores := Scores(values, trials, Sign(mode), draw);
    SortedIsSorted(ByScore, scores);
    hide Sorted, Drawn, Mean, TokenOf, Ascending;
  }

  /** Equal up to one part in 10^12, or 10^-12 near zero. */
  ghost predicate Close(x: real, y: real) {
    Abs(x - y) <= 0.000000000001 || Abs(x - y) <= 0.000000000001 * Abs(x) || Abs(x - y) <= 0.000000000001 * Abs(y)
  }

  /** Some other trial is second to none but the winner, and close to it. */
  ghost predicate TiedForBest(values: Values, trials: seq<int>, mode: string, draw: seq<Seed>, winner: int) {
    exists u :: u in trials && u != winner && Close(MeanOf(values, winner, draw), MeanOf(values, u, draw))
                && forall t :: t in trials && t != winner ==>
                     !Better(mode, MeanOf(values, t, draw), MeanOf(values, u, draw))
  }

  lemma CloseScores(mode: string, x: real, y: real)
    ensures IsClose(Towards(mode, x), Towards(mode, y)) <==> Close(x, y)
  {}

  /** Without a practical margin a draw is unresolved exactly when the runner-up is close to the winner;
      otherwise it prefers the winner. */
  lemma PlainToken(values: Values, trials: seq<int>, mode: string, draw: seq<Seed>)
    requires TrialsOf(trials, values) && Drawable(values, draw)
    ensures var winner := Winners(values, trials, Sign(mode), None)(draw);
      Tokens(values, trials, Sign(mode), None)(draw) ==
      if TiedForBest(values, trials, mode, draw, winner) then Unresolved else Preferred(winner)
  {
    var scores := DrawScores(values, trials, mode, draw);
    var ordered := Sorted(ByScore, scores);
    var n, winner := |ordered|, ordered[|ordered|-1].trial;
    OrderedMeans(values, trials, mode, draw, scores, ordered);
    NoTrialTwice(trials, scores, ordered);
    hide Sorted, Drawn, Mean, Defined, TrialsOf, Drawable, MeanOf, Outcome, Ascending, IsClose, Towards, Sign;
    if n >= 2 {
      RunnerUp(values, trials, mode, draw, scores, ordered);
    } else {
      LoneTrial(values, trials, mode, draw, winner);
    }
  }

  lemma LoneTrial(values: Values, trials: seq<int>, mode: string, draw: seq<Seed>, winner: int)
    requires |trials| == 1 && winner in trials
    ensures !TiedForBest(values, trials, mode, draw, winner)
  {}

  lemma OrderedMeans(values: Values, trials: seq<int>, mode: string, draw: seq<Seed>, scores: seq<Score>,
      ordered: seq<Score>)
    requires multiset(ordered) == multiset(scores) && |scores| == |trials|
    requires forall k :: 0 <= k < |trials| ==>
      scores[k] == Score(Towards(mode, MeanOf(values, trials[k], draw)), trials[k])
    ensures forall i :: 0 <= i < |ordered| ==>
      ordered[i].trial in trials && ordered[i].value == Towards(mode, MeanOf(values, ordered[i].trial, draw))
  {
    hide MeanOf, Towards;
    forall i | 0 <= i < |ordered|
      ensures ordered[i].trial in trials && ordered[i].value == Towards(mode, MeanOf(values, ordered[i].trial, draw))
    {
      var k := IndexOf(ordered, scores, i);
    }
  }

  lemma NoTrialTwice(trials: seq<int>, scores: seq<Score>, ordered: seq<Score>)
    requires |scores| == |trials| && multiset(ordered) == multiset(scores)
    requires forall k :: 0 <= k < |scores| ==> scores[k].trial == trials[k]
    requires forall i, j :: 0 <= i < j < |trials| ==> trials[i] < trials[j]
    ensures forall i, j :: 0 <= i < j < |ordered| ==> ordered[i].trial != ordered[j].trial
  {
    DistinctPermutation(scores, ordered);
    forall i, j | 0 <= i < j < |ordered| ensures ordered[i].trial != ordered[j].trial {
      var k := IndexOf(ordered, scores, i);
      var l := IndexOf(ordered, scores, j);
    }
  }

  lemma RunnerUp(values: Values, trials: seq<int>, mode: string, draw: seq<Seed>, scores: seq<Score>,
      ordered: seq<Score>)
    requires |scores| == |trials| >= 2 && |ordered| == |scores| && multiset(ordered) == multiset(scores)
    requires Ascending(ByScore, ordered)
    requires forall k :: 0 <= k < |scores| ==> scores[k].trial == trials[k]
    requires forall i :: 0 <= i < |ordered| ==>
      ordered[i].trial in trials && ordered[i].value == Towards(mode, MeanOf(values, ordered[i].trial, draw))
    requires forall i, j :: 0 <= i < j < |ordered| ==> ordered[i].trial != ordered[j].trial
    ensures var n := |ordered|;
      TiedForBest(values, trials, mode, draw, ordered[n-1].trial) <==> IsClose(ordered[n-1].value, ordered[n-2].value)
  {
    hide MeanOf, IsClose, Close;
    var n := |ordered|;
    var winner, second := ordered[n-1].trial, ordered[n-2].trial;
    CloseScores(mode, MeanOf(values, winner, draw), MeanOf(values, second, draw));
    forall t | t in trials && t != winner
      ensures Towards(mode, MeanOf(values, t, draw)) <= Towards(mode, MeanOf(values, second, draw))
    {
      var k :| 0 <= k < |trials| && trials[k] == t;
      var j := IndexOf(scores, ordered, k);
      assert j < n - 2 ==> ByScore(ordered[j], ordered[n-2]);
    }
    if TiedForBest(values, trials, mode, draw, winner) {
      var u :| u in trials && u != winner && Close(MeanOf(values, winner, draw), MeanOf(values, u, draw))
        && forall t :: t in trials && t != winner ==> !Better(mode, MeanOf(values, t, draw), MeanOf(values, u, draw));
      assert !Better(mode, MeanOf(values, second, draw), MeanOf(values, u, draw));
      assert MeanOf(values, u, draw) == MeanOf(values, second, draw);
    }
  }

  /** A concluded preference names a trial that won a strict majority of the resamples. */
  lemma PreferredWonMajority(values: Values, trials: seq<int>, mode: string, margin: Option<real>,
      draws: seq<seq<Seed>>, c: Conclusion)
    requires TrialsOf(trials, values) && forall d :: 0 <= d < |draws| ==> Drawable(values, draws[d])
    ensures Concludes(Map(Tokens(values, trials, Sign(mode), margin), draws), trials, c) && c.token.Preferred? ==>
      && 2 * multiset(Map(Winners(values, trials, Sign(mode), margin), draws))[c.token.trial] > |draws|
      && c.trials == [c.token.trial] && c.confidence > 0.5
  {
    hide Map, Tokens, Winners;
    if Concludes(Map(Tokens(values, trials, Sign(mode), margin), draws), trials, c) && c.token.Preferred? {
      PreferredCount(values, trials, Sign(mode), margin, draws, c.token.trial);
      var count := multiset(Map(Tokens(values, trials, Sign(mode), margin), draws))[c.token];
      HalfOf(count, |draws|);
    }
  }

  // ----- direction neutrality -----

  function Negated(values: Values): Values {
    map t | t in values :: map s | s in values[t] :: -values[t][s]
  }

  ghost predicate Opposite(mode: string, other: string) { (mode == "max") != (other == "max") }

  lemma {:induction false} SumNegates(xs: seq<real>, ys: seq<real>)
    requires |xs| == |ys| && forall i :: 0 <= i < |xs| ==> ys[i] == -xs[i]
    ensures Sum(ys) == -Sum(xs)
  {
    if xs != [] {
      SumNegates(xs[..|xs|-1], ys[..|xs|-1]);
    }
  }

  lemma MeanNegates(xs: seq<real>, ys: seq<real>)
    requires |xs| == |ys| && forall i :: 0 <= i < |xs| ==> ys[i] == -xs[i]
    ensures Mean(ys) == -Mean(xs)
  {
    SumNegates(xs, ys);
  }

  lemma NegatedScores(values: Values, trials: seq<int>, mode: string, other: string, draw: seq<Seed>)
    requires Opposite(mode, other) && forall k :: 0 <= k < |trials| ==> Defined(values, trials[k], draw)
    ensures forall k :: 0 <= k < |trials| ==> Defined(Negated(values), trials[k], draw)
    ensures Scores(Negated(values), trials, Sign(other), draw) == Scores(values, trials, Sign(mode), draw)
  {
    forall k | 0 <= k < |trials|
      ensures Defined(Negated(values), trials[k], draw)
      ensures Mean(Drawn(Negated(values), trials[k], draw)) == -Mean(Drawn(values, trials[k], draw))
    {
      MeanNegates(Drawn(values, trials[k], draw), Drawn(Negated(values), trials[k], draw));
    }
    hide Negated, Defined, Drawn, Mean;
  }

  lemma NegatedOutcome(values: Values, trials: seq<int>, mode: string, other: string, margin: Option<real>,
      draw: seq<Seed>)
    requires Opposite(mode, other) && TrialsOf(trials, values) && Drawable(values, draw)
    ensures Outcome(Negated(values), trials, Sign(other), margin, draw) ==
        Outcome(values, trials, Sign(mode), margin, draw)
  {
    EveryLookupIsDefined(values, trials, draw);
    NegatedScores(values, trials, mode, other, draw);
    hide Negated, Defined, Scores, Sign, TokenOf, Sorted, TrialsOf, Drawable;
  }

  /** Negating every value and swapping the direction changes no winner, no count and so no
      conclusion of the same resamples. */
  lemma ConclusionIsDirectionNeutral(values: Values, trials: seq<int>, mode: string, other: string,
      margin: Option<real>, draws: seq<seq<Seed>>)
    requires Opposite(mode, other) && TrialsOf(trials, values) && forall d :: 0 <= d < |draws| ==>
        Drawable(values, draws[d])
    ensures Map(Winners(Negated(values), trials, Sign(other), margin), draws) ==
        Map(Winners(values, trials, Sign(mode), margin), draws)
    ensures Map(Tokens(Negated(values), trials, Sign(other), margin), draws) ==
        Map(Tokens(values, trials, Sign(mode), margin), draws)
  {
    hide Outcome, Map, Negated, Sign;
    forall d | 0 <= d < |draws|
      ensures Outcome(Negated(values), trials, Sign(other), margin, draws[d]) ==
          Outcome(values, trials, Sign(mode), margin, draws[d])
    {
      NegatedOutcome(values, trials, mode, other, margin, draws[d]);
    }
  }

  /** The first best mean over the trials with any value, in the order they were read. */
  function PointLeader(means: seq<Score>, mode: string): Option<int>
  {
    if means == [] then None
    else
      var k := FirstBest(means, mode);
      Some(means[k].trial)
  }

  function FirstBest(means: seq<Score>, mode: string): (k: nat)
    requires means != []
    ensures k < |means|
  {
    var n := |means| - 1;
    if n == 0 then 0
    else
      var before := FirstBest(means[..n], mode);
      if (if mode == "max" then means[n].value > means[before].value else means[n].value < means[before].value)
      then n else before
  }

  /** The leader is the first of the best means in the objective's own direction. */
  lemma {:induction false} LeaderIsFirstBest(means: seq<Score>, mode: string)
    requires means != []
    ensures var k := FirstBest(means, mode);
      && PointLeader(means, mode) == Some(means[k].trial)
      && (forall i :: 0 <= i < |means| ==> !Better(mode, means[i].value, means[k].value))
      && forall i :: 0 <= i < k ==> Better(mode, means[k].value, means[i].value)
  {
    if |means| > 1 {
      LeaderIsFirstBest(means[..|means|-1], mode);
    }
  }

  lemma {:induction false} LeaderIsDirectionNeutral(means: seq<Score>, negated: seq<Score>, mode: string, other: string)
    requires Opposite(mode, other) && |means| == |negated| && means != []
    requires forall k :: 0 <= k < |means| ==> negated[k] == Score(-means[k].value, means[k].trial)
    ensures FirstBest(negated, other) == FirstBest(means, mode)
    ensures PointLeader(negated, other) == PointLeader(means, mode)
  {
    var n := |means| - 1;
    if n > 0 {
      LeaderIsDirectionNeutral(means[..n], negated[..n], mode, other);
    }
  }

  // ----- paired comparison of two trials -----

  datatype Comparison = Comparison(
    support: nat, mean: Option<real>, superiority: Option<real>, consistency: Option<real>, equivalence: Option<real>)

  function CountIf(p: real -> bool, xs: seq<real>): nat {
    if xs == [] then 0 else CountIf(p, xs[..|xs|-1]) + (if p(xs[|xs|-1]) then 1 else 0)
  }

  predicate Positive(x: real) { x > 0.0 }
  predicate Zero(x: real) { x == 0.0 }
  predicate NotNegative(x: real) { x >= 0.0 }
  predicate NotPositive(x: real) { x <= 0.0 }
  function Small(margin: real): real -> bool { x => Abs(x) <= margin }

  predicate Shared(values: Values, left: int, right: int, seeds: seq<Seed>) {
    seeds != [] ==>
      && left in values && right in values
      && forall i :: 0 <= i < |seeds| ==> seeds[i] in values[left] && seeds[i] in values[right]
  }

  function Differences(values: Values, sign: real, left: int, right: int, seeds: seq<Seed>): seq<real>
    requires Shared(values, left, right, seeds)
  {
    seq(|seeds|, i requires 0 <= i < |seeds| => sign * (values[left][seeds[i]] - values[right][seeds[i]]))
  }

  function Compare(differences: seq<real>, margin: Option<real>): Comparison {
    if |differences| == 0 then Comparison(0, None, None, None, None)
    else Rates(|differences|, Mean(differences), CountIf(Positive, differences), CountIf(Zero, differences),
      CountIf(NotNegative, differences), CountIf(NotPositive, differences),
      if margin.Some? then Some(CountIf(Small(margin.value), differences)) else None)
  }

  function Rates(n: nat, mean: real, above: nat, equal: nat, up: nat, down: nat, small: Option<nat>): Comparison
    requires n > 0
  {
    Comparison(n, Some(mean), Some((above as real + 0.5 * equal as real) / n as real),
      Some((if up < down then down else up) as real / n as real),
      if small.Some? then Some(small.value as real / n as real) else None)
  }

  lemma {:induction false} CountIfIsSize(p: real -> bool, xs: seq<real>)
    ensures CountIf(p, xs) == |set i | 0 <= i < |xs| && p(xs[i])|
  {
    if xs != [] {
      CountIfIsSize(p, xs[..|xs|-1]);
      OneMoreIndex(p, xs);
    }
  }

  lemma OneMoreIndex(p: real -> bool, xs: seq<real>)
    requires xs != []
    ensures var n := |xs| - 1;
      |set i | 0 <= i < |xs| && p(xs[i])| == |set i | 0 <= i < n && p(xs[..n][i])| + (if p(xs[n]) then 1 else 0)
  {
    var n := |xs| - 1;
    var before, all := set i | 0 <= i < n && p(xs[..n][i]), set i | 0 <= i < |xs| && p(xs[i]);
    assert all == before + (if p(xs[n]) then {n} else {});
  }

  /** The seeds at which the difference of the two trials satisfies p. */
  ghost function SeedsWhere(p: (real, real) -> bool, values: Values, left: int, right: int, seeds: seq<Seed>): set<nat>
    requires Shared(values, left, right, seeds)
  {
    set i: nat | i < |seeds| && p(values[left][seeds[i]], values[right][seeds[i]])
  }

  ghost function Wins(mode: string): (real, real) -> bool { (x, y) => Better(mode, x, y) }
  ghost function Holds(mode: string): (real, real) -> bool { (x, y) => !Better(mode, y, x) }
  ghost function Yields(mode: string): (real, real) -> bool { (x, y) => !Better(mode, x, y) }
  ghost function Draws(): (real, real) -> bool { (x, y) => x == y }
  ghost function Nears(margin: real): (real, real) -> bool { (x, y) => Abs(x - y) <= margin }

  /** What a comparison reports, seed by seed, in the objective's own direction: ties count half for
      superiority, consistency is the larger of holding and yielding, and a margin counts near ties. */
  lemma ComparisonMeans(values: Values, mode: string, margin: Option<real>, left: int, right: int, seeds: seq<Seed>)
    requires Shared(values, left, right, seeds) && seeds != []
    ensures var c, n := Compare(Differences(values, Sign(mode), left, right, seeds), margin), |seeds| as real;
      && c.support == |seeds|
      && c.superiority == Some((|SeedsWhere(Wins(mode), values, left, right, seeds)| as real
                                + 0.5 * |SeedsWhere(Draws(), values, left, right, seeds)| as real) / n)
      && c.consistency == Some(Max(|SeedsWhere(Holds(mode), values, left, right, seeds)| as real,
                                   |SeedsWhere(Yields(mode), values, left, right, seeds)| as real) / n)
      && c.equivalence == (if margin.None? then None
                           else Some(|SeedsWhere(Nears(margin.value), values, left, right, seeds)| as real / n))
  {
    CountWhere(Positive, Wins(mode), values, mode, left, right, seeds);
    CountWhere(Zero, Draws(), values, mode, left, right, seeds);
    CountWhere(NotNegative, Holds(mode), values, mode, left, right, seeds);
    CountWhere(NotPositive, Yields(mode), values, mode, left, right, seeds);
    if margin.Some? {
      CountWhere(Small(margin.value), Nears(margin.value), values, mode, left, right, seeds);
    }
    hide CountIf, Mean, Differences, SeedsWhere, Wins, Draws, Holds, Yields, Nears, Shared, Sign;
  }

  lemma SignedIsTowards(mode: string, x: real)
    ensures Sign(mode) * x == Towards(mode, x)
  {}

  lemma CountWhere(p: real -> bool, q: (real, real) -> bool, values: Values, mode: string, left: int, right: int,
      seeds: seq<Seed>)
    requires Shared(values, left, right, seeds)
    requires forall x, y :: p(Towards(mode, x - y)) <==> q(x, y)
    ensures CountIf(p, Differences(values, Sign(mode), left, right, seeds))
         == |SeedsWhere(q, values, left, right, seeds)|
  {
    var d := Differences(values, Sign(mode), left, right, seeds);
    CountIfIsSize(p, d);
    forall i: nat | i < |seeds| ensures p(d[i]) <==> q(values[left][seeds[i]], values[right][seeds[i]]) {
      SignedIsTowards(mode, values[left][seeds[i]] - values[right][seeds[i]]);
      assert p(Towards(mode, values[left][seeds[i]] - values[right][seeds[i]])) <==>
        q(values[left][seeds[i]], values[right][seeds[i]]);
    }
    hide CountIf, Sign, Towards;
    assert (set i | 0 <= i < |d| && p(d[i])) == SeedsWhere(q, values, left, right, seeds);
  }

  /** Comparisons do not depend on the direction either. */
  lemma ComparisonIsDirectionNeutral(values: Values, mode: string, other: string, margin: Option<real>, left: int,
      right: int, seeds: seq<Seed>)
    requires Opposite(mode, other) && Shared(values, left, right, seeds)
    ensures Shared(Negated(values), left, right, seeds)
    ensures Compare(Differences(Negated(values), Sign(other), left, right, seeds), margin)
         == Compare(Differences(values, Sign(mode), left, right, seeds), margin)
  {
    assert Differences(Negated(values), Sign(other), left, right, seeds) ==
        Differences(values, Sign(mode), left, right, seeds);
  }

  lemma {:induction false} MirroredCounts(xs: seq<real>, ys: seq<real>, margin: real)
    requires |xs| == |ys| && forall i :: 0 <= i < |xs| ==> ys[i] == -xs[i]
    ensures CountIf(Positive, xs) + CountIf(Zero, xs) + CountIf(Positive, ys) == |xs| &&
        CountIf(Zero, ys) == CountIf(Zero, xs)
    ensures CountIf(NotNegative, ys) == CountIf(NotPositive, xs) && CountIf(NotPositive, ys) == CountIf(NotNegative, xs)
    ensures CountIf(Small(margin), ys) == CountIf(Small(margin), xs)
  {
    if xs != [] {
      MirroredCounts(xs[..|xs|-1], ys[..|xs|-1], margin);
    }
  }

  /** Swapping the two trials negates the mean difference and complements the probability of
      superiority; support, sign consistency and equivalence stay. */
  lemma SwappedSides(xs: seq<real>, ys: seq<real>, margin: Option<real>)
    requires |xs| == |ys| > 0 && forall i :: 0 <= i < |xs| ==> ys[i] == -xs[i]
    ensures var c, d := Compare(xs, margin), Compare(ys, margin);
      && d.mean == Some(-c.mean.value) && d.superiority == Some(1.0 - c.superiority.value)
      && d.support == c.support && d.consistency == c.consistency && d.equivalence == c.equivalence
  {
    hide CountIf, Mean, Rates;
    MeanNegates(xs, ys);
    MirroredCounts(xs, ys, if margin.Some? then margin.value else 0.0);
    SwappedRates(|xs|, Mean(xs), CountIf(Positive, xs), CountIf(Zero, xs), CountIf(Positive, ys),
      CountIf(NotNegative, xs), CountIf(NotPositive, xs),
      if margin.Some? then Some(CountIf(Small(margin.value), xs)) else None);
  }

  lemma SwappedRates(n: nat, mean: real, above: nat, equal: nat, below: nat, up: nat, down: nat, small: Option<nat>)
    requires n > 0 && above + equal + below == n
    ensures var c, d := Rates(n, mean, above, equal, up, down, small), Rates(n, -mean, below, equal, down, up, small);
      && d.mean == Some(-c.mean.value) && d.superiority == Some(1.0 - c.superiority.value)
      && d.support == c.support && d.consistency == c.consistency && d.equivalence == c.equivalence
      && c.mean.Some? && c.superiority.Some?
  {
    Complement(above as real, equal as real, below as real, n as real);
  }

  lemma Complement(p: real, z: real, q: real, n: real)
    requires n > 0.0 && p + z + q == n
    ensures (q + 0.5 * z) / n == 1.0 - (p + 0.5 * z) / n
  {
    var r := (p + 0.5 * z) / n;
    assert r * n == p + 0.5 * z;
    QuotientIs(q + 0.5 * z, n, 1.0 - r);
  }
}
