/** Handing out healthy endpoints: coalesced health checks and the round-robin pick. */
module EndpointPool {
  import opened Domain

  // ---- round robin --------------------------------------------------------

  /** How many of the m picks from index `from` on fall on position j of n. */
  function Hits(from: nat, m: nat, n: nat, j: nat): nat
    requires n > 0
  {
    if m == 0 then 0 else Hits(from, m - 1, n, j) + if (from + m - 1) % n == j then 1 else 0
  }

  lemma MulGrows(k: int, n: nat)
    requires n > 0
    ensures k >= 1 ==> k * n >= n
    ensures k <= -1 ==> k * n <= 0 - n
  {
  }

  lemma DivModUnique(x: nat, n: nat, q: int, r: nat)
    requires r < n && x == q * n + r
    ensures x / n == q && x % n == r
  {
    var d, e := x / n, x % n;
    assert x == d * n + e;
    assert (d - q) * n == r - e;
    MulGrows(d - q, n);
  }

  lemma {:induction false} HitsSplit(from: nat, a: nat, b: nat, n: nat, j: nat)
    requires n > 0
    ensures Hits(from, a + b, n, j) == Hits(from, a, n, j) + Hits(from + a, b, n, j)
  {
    if b > 0 {
      HitsSplit(from, a, b - 1, n, j);
    }
  }

  lemma {:induction false} FirstCycle(m: nat, n: nat, j: nat)
    requires m <= n && j < n
    ensures Hits(0, m, n, j) == if j < m then 1 else 0
  {
    if m > 0 {
      FirstCycle(m - 1, n, j);
      DivModUnique(m - 1, n, 0, m - 1);
    }
  }

  lemma SameRemainder(x: nat, n: nat)
    requires n > 0
    ensures (x + n) % n == x % n
  {
    var q, r := x / n, x % n;
    assert (q + 1) * n == q * n + n;
    DivModUnique(x + n, n, q + 1, r);
  }

  /** n picks in a row reach every position once. */
  lemma {:induction false} Cycle(from: nat, n: nat, j: nat)
    requires j < n
    ensures Hits(from, n, n, j) == 1
  {
    if from == 0 {
      FirstCycle(n, n, j);
    } else {
      Cycle(from - 1, n, j);
      HitsSplit(from - 1, 1, n, n, j);
      HitsSplit(from - 1, n, 1, n, j);
      SameRemainder(from - 1, n);
      assert Hits(from - 1, 1, n, j) == Hits(from - 1 + n, 1, n, j);
    }
  }

  lemma PartCycle(m: nat, n: nat)
    requires m < n
    ensures m / n == 0 && (m + n - 1) / n == if m == 0 then 0 else 1
  {
    DivModUnique(m, n, 0, m);
    if m > 0 {
      DivModUnique(m + n - 1, n, 1, m - 1);
    } else {
      DivModUnique(n - 1, n, 0, n - 1);
    }
  }

  /** Over any m consecutive picks from a stable list of n endpoints, each is picked floor(m/n) or ceil(m/n) times. */
  lemma {:induction false} FairShare(from: nat, m: nat, n: nat, j: nat)
    requires j < n
    ensures m / n <= Hits(from, m, n, j) <= (m + n - 1) / n
    decreases m
  {
    if m < n {
      HitsSplit(from, m, n - m, n, j);
      Cycle(from, n, j);
      PartCycle(m, n);
    } else {
      FairShare(from + n, m - n, n, j);
      HitsSplit(from, n, m - n, n, j);
      Cycle(from, n, j);
      OneCycleLess(m, n);
    }
  }

  lemma OneCycleLess(m: nat, n: nat)
    requires 0 < n <= m
    ensures m / n == (m - n) / n + 1 && (m + n - 1) / n == (m - n + n - 1) / n + 1
  {
    Shifted(m, n);
    Shifted(m + n - 1, n);
  }

  lemma Shifted(x: nat, n: nat)
    requires 0 < n <= x
    ensures x / n == (x - n) / n + 1
  {
    var q, r := x / n, x % n;
    assert (q - 1) * n == q * n - n;
    DivModUnique(x - n, n, q - 1, r);
  }

  // ---- coalesced health checks --------------------------------------------

  /**
   * Callers ask for an endpoint and may have to wait for a health check; checks finish in their own
   * time, with a new list of healthy endpoints or by failing.
   */
  datatype Event = Ask(caller: nat, stale: bool) | CheckEnds(healthy: Option<seq<string>>) | Wake(caller: nat)

  datatype Outcome = Url(url: string) | NoneHealthy | CheckFailed

  /**
   * running: health checks under way; waiting: callers whose promise hangs on the check; ready: callers
   * whose check has ended, with its success; answers: what callers got.
   */
  datatype State = State(healthy: seq<string>, index: nat, inFlight: bool, running: nat,
                         waiting: set<nat>, ready: map<nat, bool>, answers: seq<Outcome>)

  const FRESH := State([], 0, false, 0, {}, map[], [])

  function Pick(s: State): State {
    var got := if s.healthy == [] then NoneHealthy else Url(s.healthy[s.index % |s.healthy|]);
    s.(index := s.index + 1, answers := s.answers + [got])
  }

  /** m picks in a row. */
  function Picks(s: State, m: nat): State {
    if m == 0 then s else Pick(Picks(s, m - 1))
  }

  function CountOf(answers: seq<Outcome>, url: string): nat {
    if answers == [] then 0
    else CountOf(answers[..|answers| - 1], url) + if answers[|answers| - 1] == Url(url) then 1 else 0
  }

  lemma {:induction false} PicksHit(s: State, m: nat, j: nat)
    requires j < |s.healthy| && forall a, b :: 0 <= a < b < |s.healthy| ==> s.healthy[a] != s.healthy[b]
    ensures Picks(s, m).healthy == s.healthy && Picks(s, m).index == s.index + m
    ensures CountOf(Picks(s, m).answers, s.healthy[j]) == CountOf(s.answers, s.healthy[j]) + Hits(s.index, m, |s.healthy|, j)
  {
    if m > 0 {
      PicksHit(s, m - 1, j);
      var before := Picks(s, m - 1).answers;
      var at := (s.index + m - 1) % |s.healthy|;
      assert Picks(s, m).answers == before + [Url(s.healthy[at])];
      CountSnoc(before, Url(s.healthy[at]), s.healthy[j]);
    }
  }

  lemma CountSnoc(answers: seq<Outcome>, got: Outcome, url: string)
    ensures CountOf(answers + [got], url) == CountOf(answers, url) + if got == Url(url) then 1 else 0
  {
    assert (answers + [got])[..|answers|] == answers;
  }

  /** While the healthy list stays the same, each of its URLs gets its fair share of any m picks in a row. */
  lemma {:induction false} PicksAreFair(s: State, m: nat, j: nat)
    requires j < |s.healthy| && forall a, b :: 0 <= a < b < |s.healthy| ==> s.healthy[a] != s.healthy[b]
    ensures
      var n := |s.healthy|;
      var got := CountOf(Picks(s, m).answers, s.healthy[j]) - CountOf(s.answers, s.healthy[j]);
      m / n <= got <= (m + n - 1) / n
  {
    PicksHit(s, m, j);
    FairShare(s.index, m, |s.healthy|, j);
  }

  function Step(s: State, e: Event): State {
    match e
    case Ask(c, stale) =>
      if c in s.waiting || c in s.ready then s
      else if stale || s.healthy == [] then
        var asked := s.(waiting := s.waiting + {c});
        if s.inFlight then asked else asked.(inFlight := true, running := s.running + 1)
      else Pick(s)
    case CheckEnds(result) =>
      if s.running == 0 then s
      else s.(healthy := result.GetOr(s.healthy), inFlight := false, running := s.running - 1, waiting := {},
              ready := s.ready + map c | c in s.waiting :: result.Some?)
    case Wake(c) =>
      if c !in s.ready then s
      else if s.ready[c] then Pick(s).(ready := s.ready - {c})
      else s.(ready := s.ready - {c}, answers := s.answers + [CheckFailed])
  }

  function Steps(s: State, es: seq<Event>): State {
    if es == [] then s else Step(Steps(s, es[..|es| - 1]), es[|es| - 1])
  }

  ghost predicate PoolInv(s: State) {
    && s.running == (if s.inFlight then 1 else 0)
    && (s.waiting != {} ==> s.inFlight)
    && s.waiting !! s.ready.Keys
  }

  /** Under any interleaving of callers and checks at most one check is running, and nobody waits without one. */
  lemma {:induction false} ChecksCoalesce(es: seq<Event>)
    ensures PoolInv(Steps(FRESH, es)) && Steps(FRESH, es).running <= 1
  {
    if es != [] {
      ChecksCoalesce(es[..|es| - 1]);
    }
  }

  /** The healthy list the last check that succeeded came back with. */
  function LastList(es: seq<Event>): seq<string> {
    if es == [] then []
    else
      var before, last := es[..|es| - 1], es[|es| - 1];
      if last.CheckEnds? && last.healthy.Some? && Steps(FRESH, before).running > 0 then last.healthy.value else LastList(before)
  }

  lemma {:induction false} ListIsLast(es: seq<Event>)
    ensures Steps(FRESH, es).healthy == LastList(es)
  {
    if es != [] {
      ListIsLast(es[..|es| - 1]);
    }
  }

  /**
   * An event hands out at most one answer, never takes one back, and a URL it hands out is in the
   * healthy list of the last check that had succeeded by then.
   */
  lemma {:induction false} GivenIsHealthy(es: seq<Event>, e: Event)
    ensures
      var before, after := Steps(FRESH, es).answers, Steps(FRESH, es + [e]).answers;
      after == before || exists got :: after == before + [got] && (got.Url? ==> got.url in LastList(es))
  {
    ListIsLast(es);
    var s := Steps(FRESH, es);
    assert (es + [e])[..|es|] == es;
    var t := Step(s, e);
    assert Steps(FRESH, es + [e]) == t;
    if t.answers != s.answers {
      var got := t.answers[|s.answers|];
      assert t.answers == s.answers + [got];
      assert got.Url? ==> got.url == s.healthy[s.index % |s.healthy|];
    }
  }

  /** A caller with no question open asks: it is answered at once, or waits for the one check under way. */
  lemma {:induction false} AnsweredAtOnceIff(es: seq<Event>, c: nat, stale: bool)
    requires c !in Steps(FRESH, es).waiting && c !in Steps(FRESH, es).ready
    ensures
      var s, t := Steps(FRESH, es), Step(Steps(FRESH, es), Ask(c, stale));
      if !stale && LastList(es) != []
      then t.answers == s.answers + [Url(LastList(es)[s.index % |LastList(es)|])] && t.waiting == s.waiting && t.running == s.running
      else t.answers == s.answers && t.waiting == s.waiting + {c} && t.running == 1
  {
    ListIsLast(es);
    ChecksCoalesce(es);
  }

  /** How many questions were asked: a caller whose last one is still open asks no other. */
  function Questions(es: seq<Event>): nat {
    if es == [] then 0
    else
      var before, last := es[..|es| - 1], es[|es| - 1];
      var s := Steps(FRESH, before);
      Questions(before) + if last.Ask? && last.caller !in s.waiting && last.caller !in s.ready then 1 else 0
  }

  /** Every question gets one answer: those asked are those answered, those waiting and those about to go on. */
  lemma {:induction false} OneAnswerEach(es: seq<Event>)
    ensures
      var s := Steps(FRESH, es);
      Questions(es) == |s.answers| + |s.waiting| + |s.ready.Keys|
  {
    if es != [] {
      var before := es[..|es| - 1];
      OneAnswerEach(before);
      ChecksCoalesce(before);
      var s := Steps(FRESH, before);
      match es[|es| - 1]
      case Ask(c, stale) => OpenAsk(s, c, stale);
      case CheckEnds(result) => OpenEnds(s, result);
      case Wake(c) => OpenWake(s, c);
    }
  }

  function Open(s: State): nat { |s.answers| + |s.waiting| + |s.ready.Keys| }

  lemma OpenAsk(s: State, c: nat, stale: bool)
    ensures Open(Step(s, Ask(c, stale))) == Open(s) + if c !in s.waiting && c !in s.ready then 1 else 0
  {
    PickAnswers(s);
    hide Pick;
  }

  lemma OpenEnds(s: State, result: Option<seq<string>>)
    requires PoolInv(s)
    ensures Open(Step(s, CheckEnds(result))) == Open(s)
  {
    hide Pick;
    if s.running > 0 {
      var t := Step(s, CheckEnds(result));
      assert t.ready.Keys == s.ready.Keys + s.waiting;
      Disjoint(s.ready.Keys, s.waiting);
      assert t.waiting == {} && t.answers == s.answers;
    }
  }

  lemma OpenWake(s: State, c: nat)
    ensures Open(Step(s, Wake(c))) == Open(s)
  {
    PickAnswers(s);
    hide Pick;
    if c in s.ready {
      var t := Step(s, Wake(c));
      assert t.ready.Keys == s.ready.Keys - {c};
      assert s.ready.Keys == t.ready.Keys + {c};
      Disjoint(t.ready.Keys, {c});
      assert t.waiting == s.waiting && |t.answers| == |s.answers| + 1;
    }
  }

  lemma PickAnswers(s: State)
    ensures |Pick(s).answers| == |s.answers| + 1 && Pick(s) == s.(index := Pick(s).index, answers := Pick(s).answers)
  {
  }

  lemma Disjoint(a: set<nat>, b: set<nat>)
    requires a !! b
    ensures |a + b| == |a| + |b|
  {
  }

  lemma {:induction false} FateStays(s: State, es: seq<Event>, c: nat)
    requires c in s.ready && Wake(c) !in es && PoolInv(s)
    ensures PoolInv(Steps(s, es)) && c in Steps(s, es).ready && Steps(s, es).ready[c] == s.ready[c]
  {
    if es != [] {
      var before, last := es[..|es| - 1], es[|es| - 1];
      assert es == before + [last];
      FateStays(s, before, c);
      FateStep(Steps(s, before), last, c);
    }
  }

  lemma FateStep(s: State, e: Event, c: nat)
    requires c in s.ready && e != Wake(c) && PoolInv(s)
    ensures PoolInv(Step(s, e)) && c in Step(s, e).ready && Step(s, e).ready[c] == s.ready[c]
  {
    PickAnswers(s);
    hide Pick;
  }

  /**
   * A caller that waits shares the fate of its check: it gets its failure, or else the list's next URL as of
   * when it goes on, whatever happens in between.
   */
  lemma {:induction false} WaiterGets(s: State, result: Option<seq<string>>, es: seq<Event>, c: nat)
    requires PoolInv(s) && c in s.waiting && Wake(c) !in es
    ensures
      var t := Steps(Step(s, CheckEnds(result)), es);
      Step(t, Wake(c)).answers == t.answers +
        [if result.None? then CheckFailed else if t.healthy == [] then NoneHealthy else Url(t.healthy[t.index % |t.healthy|])]
  {
    FateStays(Step(s, CheckEnds(result)), es, c);
  }

  /** The part of the query operator that hands out endpoints of one kind, with its callers' promises. */
  class Pool {
    var healthy: seq<string>
    var index: nat
    var inFlight: bool
    var running: nat
    var waiting: set<nat>
    var ready: map<nat, bool>
    var answers: seq<Outcome>

    ghost function Contents(): State
      reads this
    {
      State(healthy, index, inFlight, running, waiting, ready, answers)
    }

    constructor ()
      ensures Contents() == FRESH
    {
      healthy, index, inFlight, running := [], 0, false, 0;
      waiting, ready, answers := {}, map[], [];
    }

    /** A caller wants an endpoint: it takes one, or waits for the check in flight, or starts one and waits. */
    method GetHealthy(caller: nat, stale: bool)
      modifies this
      ensures Contents() == Step(old(Contents()), Ask(caller, stale))
    {
      if caller in waiting || caller in ready {
        return;
      }
      if stale || |healthy| == 0 {
        if !inFlight {
          inFlight := true;
          running := running + 1;
        }
        waiting := waiting + {caller};
        return;
      }
      NextUrl();
    }

    /** A check ends, with a new list or by failing; either way its flag is reset and its callers go on. */
    method EndCheck(result: Option<seq<string>>)
      modifies this
      ensures Contents() == Step(old(Contents()), CheckEnds(result))
    {
      if running == 0 {
        return;
      }
      if result.Some? {
        healthy := result.value;
      }
      inFlight := false;
      running := running - 1;
      ready := ready + map c | c in waiting :: result.Some?;
      waiting := {};
    }

    /** A caller goes on after its check. */
    method GoOn(caller: nat)
      modifies this
      ensures Contents() == Step(old(Contents()), Wake(caller))
    {
      if caller !in ready {
        return;
      }
      if ready[caller] {
        NextUrl();
      } else {
        answers := answers + [CheckFailed];
      }
      ready := ready - {caller};
    }

    method NextUrl()
      modifies this`index, this`answers
      ensures Contents() == Pick(old(Contents()))
    {
      var i := index;
      index := index + 1;
      if |healthy| == 0 {
        answers := answers + [NoneHealthy];
      } else {
        answers := answers + [Url(healthy[i % |healthy|])];
      }
    }
  }
}
